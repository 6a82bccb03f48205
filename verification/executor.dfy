/**
 * The response selector of `executeCommand`: for a completed command, the
 * cache calls it makes and the lines it writes, as a function of the command
 * record, the payload buffer and the cache's answers.
 */
module Executor {
  import opened Protocol

  /** The VALUE line (with its data block) written for a key that has a record. */
  function ValueLine(key: Key, rec: Record, withCas: bool): Response {
    Value(key, rec.flags, rec.value, if withCas then Some(rec.casUnique) else None)
  }

  /** `a` is the VALUE write for one of `keys` that the cache has a record for. */
  ghost predicate IsValueFor(a: Action, keys: seq<Key>, lookup: Key -> Option<Record>, withCas: bool) {
    && a.Write?
    && a.response.Value?
    && a.response.key in keys
    && lookup(a.response.key).Some?
    && a.response == ValueLine(a.response.key, lookup(a.response.key).value, withCas)
  }

  /** The VALUE writes of a get (`withCas` false) or gets (`withCas` true), key by key. */
  function RetrievalLines(keys: seq<Key>, lookup: Key -> Option<Record>, withCas: bool): (w: seq<Action>)
    ensures |w| <= |keys|
    ensures forall j :: 0 <= j < |w| ==> IsValueFor(w[j], keys, lookup, withCas)
    ensures forall k :: k in keys && lookup(k).Some? ==> Write(ValueLine(k, lookup(k).value, withCas)) in w
    ensures (forall k :: k in keys ==> lookup(k).None?) ==> w == []
  {
    if keys == [] then []
    else
      var init, last := keys[..|keys| - 1], keys[|keys| - 1];
      var w0 := RetrievalLines(init, lookup, withCas);
      assert keys == init + [last];
      assert forall j :: 0 <= j < |w0| ==> IsValueFor(w0[j], keys, lookup, withCas) by {
        forall j | 0 <= j < |w0| ensures IsValueFor(w0[j], keys, lookup, withCas) {
          assert IsValueFor(w0[j], init, lookup, withCas);
        }
      }
      w0 + KeyLines(last, lookup, withCas)
  }

  /** The VALUE write for one key: one if the cache has a record for it, none otherwise. */
  function KeyLines(key: Key, lookup: Key -> Option<Record>, withCas: bool): seq<Action> {
    match lookup(key)
    case Some(rec) => [Write(ValueLine(key, rec, withCas))]
    case None => []
  }

  /** The cache lookups of a retrieval, one per key, in key order. */
  function Lookups(keys: seq<Key>): seq<CacheCall> {
    seq(|keys|, j requires 0 <= j < |keys| => Lookup(keys[j]))
  }

  /**
   * The VALUE writes keep the order of the keys: the writes for a list of
   * keys are those for its first part followed by those for the rest.
   */
  lemma {:induction false} RetrievalLinesAppend(a: seq<Key>, b: seq<Key>, lookup: Key -> Option<Record>, withCas: bool)
    ensures RetrievalLines(a + b, lookup, withCas)
         == RetrievalLines(a, lookup, withCas) + RetrievalLines(b, lookup, withCas)
    decreases |b|
  {
    if b == [] {
      assert a + b == a;
    } else {
      var init, last := b[..|b| - 1], b[|b| - 1];
      assert (a + b)[..|a + b| - 1] == a + init;
      assert (a + b)[|a + b| - 1] == last;
      calc {
        RetrievalLines(a + b, lookup, withCas);
        RetrievalLines(a + init, lookup, withCas) + KeyLines(last, lookup, withCas);
        { RetrievalLinesAppend(a, init, lookup, withCas); }
        RetrievalLines(a, lookup, withCas) + RetrievalLines(init, lookup, withCas) + KeyLines(last, lookup, withCas);
        RetrievalLines(a, lookup, withCas) + RetrievalLines(b, lookup, withCas);
      }
    }
  }

  /** The response to an add, replace, append or prepend, unless suppressed. */
  function StoreReply(suppressed: bool, stored: bool): seq<Action> {
    if suppressed then [] else [Write(if stored then Stored else NotStored)]
  }

  /**
   * The response to a cas answer: the first flag that is set wins. With no
   * flag set the response is `undefined` (`None`).
   */
  function CasResponse(a: CasAnswer): (r: Option<Response>)
    ensures r == Some(Stored) <==> a.stored
    ensures r == Some(NotFound) <==> !a.stored && a.notFound
    ensures r == Some(Exists) <==> !a.stored && !a.notFound && a.conflict
    ensures r == None <==> !a.stored && !a.notFound && !a.conflict
  {
    if a.stored then Some(Stored)
    else if a.notFound then Some(NotFound)
    else if a.conflict then Some(Exists)
    else None
  }

  /** A cas answer with exactly one flag set, as the cache's three-way result promises. */
  predicate ThreeWay(a: CasAnswer) {
    (a.stored && !a.notFound && !a.conflict)
    || (!a.stored && a.notFound && !a.conflict)
    || (!a.stored && !a.notFound && a.conflict)
  }

  /**
   * What `executeCommand` does before its final `reset()`: `payload` is
   * `context.data` (`None` for `null`).
   */
  function Execution(line: Line, payload: Option<Bytes>, cache: CacheOracle): (e: Effects)
    // get/gets: one VALUE per key with a record, then one END; a key that is not a list throws
    ensures IsRetrieve(line.command) && line.key.Many? ==>
      && e.fault == None
      && e.writes == RetrievalLines(line.key.names, cache.lookup, line.command.Gets?) + [Write(End)]
      && |e.calls| == |line.key.names|
      && (forall j :: 0 <= j < |e.calls| ==> e.calls[j] == Lookup(line.key.names[j]))
    ensures IsRetrieve(line.command) && !line.key.Many? ==> e == Effects([], [], Some(KeyNotIterable))
    // every other command writes at most one response and makes at most one cache call
    ensures !IsRetrieve(line.command) ==> |e.writes| <= 1 && |e.calls| <= 1 && Write(End) !in e.writes
    // storage commands other than cas hand the payload buffer to the cache
    ensures IsStore(line.command) && !line.command.Cas? ==>
      |e.calls| == 1 && !e.calls[0].Lookup? && e.calls[0].key == line.key && e.calls[0].value == payload && e.fault == None
    // each one calls its own cache operation, passing on the command's flags and expiry time
    ensures line.command.Set? ==> e.calls == [SetCall(line.key, line.flags, line.expTime, payload)]
    ensures line.command.Add? ==> e.calls == [AddCall(line.key, line.flags, line.expTime, payload)]
    ensures line.command.Replace? ==> e.calls == [ReplaceCall(line.key, line.flags, line.expTime, payload)]
    ensures line.command.Append? ==> e.calls == [AppendCall(line.key, payload)]
    ensures line.command.Prepend? ==> e.calls == [PrependCall(line.key, payload)]
    ensures line.command.Set? ==> e.writes == (if line.noreply then [] else [Write(Stored)])
    ensures line.command.Add? || line.command.Prepend? ==>
      e.writes == StoreReply(line.noreply, cache.storeReply(e.calls[0]))
    ensures line.command.Replace? || line.command.Append? ==>
      e.writes == StoreReply(cache.noreply, cache.storeReply(e.calls[0]))
    // cas hands `line.data` to the cache, and is silenced by `cache.noreply`
    ensures line.command.Cas? ==>
      && e.calls == [CasCall(line.key, line.flags, line.expTime, line.data, line.casUnique)]
      && (cache.noreply ==> e.writes == [] && e.fault == None)
      && (!cache.noreply ==> match CasResponse(cache.casReply(e.calls[0]))
                             case Some(r) => e.writes == [Write(r)] && e.fault == None
                             case None => e.writes == [] && e.fault == Some(WriteUndefined))
    ensures line.command.Quit? ==> e == Effects([Close], [], None)
    ensures IsUnlisted(line.command) ==> e == NoEffects
  {
    match line.command
    case Get | Gets =>
      if line.key.Many? then
        var keys := line.key.names;
        Effects(RetrievalLines(keys, cache.lookup, line.command.Gets?) + [Write(End)], Lookups(keys), None)
      else Effects([], [], Some(KeyNotIterable))
    case Add =>
      var call := AddCall(line.key, line.flags, line.expTime, payload);
      Effects(StoreReply(line.noreply, cache.storeReply(call)), [call], None)
    case Set =>
      var call := SetCall(line.key, line.flags, line.expTime, payload);
      Effects(if line.noreply then [] else [Write(Stored)], [call], None)
    case Replace =>
      var call := ReplaceCall(line.key, line.flags, line.expTime, payload);
      Effects(StoreReply(cache.noreply, cache.storeReply(call)), [call], None)
    case Append =>
      var call := AppendCall(line.key, payload);
      Effects(StoreReply(cache.noreply, cache.storeReply(call)), [call], None)
    case Prepend =>
      var call := PrependCall(line.key, payload);
      Effects(StoreReply(line.noreply, cache.storeReply(call)), [call], None)
    case Cas =>
      var call := CasCall(line.key, line.flags, line.expTime, line.data, line.casUnique);
      if cache.noreply then Effects([], [call], None)
      else
        (match CasResponse(cache.casReply(call))
         case Some(r) => Effects([Write(r)], [call], None)
         case None => Effects([], [call], Some(WriteUndefined)))
    case Quit => Effects([Close], [], None)
    case NoCommand | Other(_) => NoEffects
  }

  /**
   * A retrieval without an exception writes exactly one END, as its last
   * write, and every write before it is a VALUE line for a requested key that
   * has a record; a command of any other kind writes no END at all.
   */
  lemma {:induction false} SingleEnd(line: Line, payload: Option<Bytes>, cache: CacheOracle)
    requires Execution(line, payload, cache).fault == None
    ensures var w := Execution(line, payload, cache).writes;
      if IsRetrieve(line.command) then
        && |w| >= 1 && w[|w| - 1] == Write(End)
        && forall j :: 0 <= j < |w| - 1 ==> IsValueFor(w[j], line.key.names, cache.lookup, line.command.Gets?)
      else Write(End) !in w
  {
    if IsRetrieve(line.command) {
      var keys := line.key.names;
      var lines := RetrievalLines(keys, cache.lookup, line.command.Gets?);
      var w := Execution(line, payload, cache).writes;
      assert w == lines + [Write(End)];
      forall j | 0 <= j < |w| - 1
        ensures IsValueFor(w[j], keys, cache.lookup, line.command.Gets?)
      {
        assert w[j] == lines[j];
      }
    }
  }

  /**
   * For a cas answer with exactly one flag set, the response names that
   * flag: stored gives STORED, notFound NOT_FOUND, exists EXISTS.
   */
  lemma CasThreeWay(a: CasAnswer)
    requires ThreeWay(a)
    ensures CasResponse(a).Some?
    ensures CasResponse(a) == Some(if a.stored then Stored else if a.notFound then NotFound else Exists)
  {
  }

  /**
   * replace, append and cas ignore the command's own `noreply`: their
   * effects are the same whichever value it has.
   */
  lemma CommandNoreplyIgnored(line: Line, payload: Option<Bytes>, cache: CacheOracle)
    requires line.command.Replace? || line.command.Append? || line.command.Cas?
    ensures Execution(line.(noreply := true), payload, cache) == Execution(line.(noreply := false), payload, cache)
  {
  }

  /**
   * set, add and prepend obey the command's own `noreply`: with it set they
   * write nothing; without it they write exactly one response.
   */
  lemma CommandNoreplyObeyed(line: Line, payload: Option<Bytes>, cache: CacheOracle)
    requires line.command.Set? || line.command.Add? || line.command.Prepend?
    ensures line.noreply ==> Execution(line, payload, cache).writes == []
    ensures !line.noreply ==> |Execution(line, payload, cache).writes| == 1
  {
  }

  /**
   * cas never sees the payload that was read for it: its effects are the
   * same whatever the payload buffer holds.
   */
  lemma CasIgnoresPayload(line: Line, p: Option<Bytes>, q: Option<Bytes>, cache: CacheOracle)
    requires line.command.Cas?
    ensures Execution(line, p, cache) == Execution(line, q, cache)
  {
  }
}
