/**
 * Framing of the byte stream: where a command line ends, and what the
 * byte-by-byte payload reader does with one chunk.
 */
module Framing {
  import opened Protocol

  /**
   * A CR LF starts at position i of the chunk. Reading past the end of a
   * Node Buffer yields `undefined`, which equals neither byte, so a CR in the
   * last position never starts a terminator.
   */
  predicate IsCRLFAt(s: Bytes, i: nat) {
    i + 1 < |s| && s[i] == CR && s[i + 1] == LF
  }

  ghost predicate HasCRLF(s: Bytes) {
    exists i: nat :: IsCRLFAt(s, i)
  }

  /** The position of the first CR LF in s, or |s| when there is none. */
  function FirstCRLF(s: Bytes): (t: nat)
    ensures t <= |s|
    ensures t < |s| ==> IsCRLFAt(s, t)
    ensures forall j: nat :: j < t ==> !IsCRLFAt(s, j)
    ensures t < |s| <==> HasCRLF(s)
  {
    if |s| < 2 then |s|
    else if s[0] == CR && s[1] == LF then assert IsCRLFAt(s, 0); 0
    else
      var t' := FirstCRLF(s[1..]);
      assert forall j: nat :: j < t' + 1 ==> !IsCRLFAt(s, j) by {
        forall j: nat | j < t' + 1 ensures !IsCRLFAt(s, j) {
          if j > 0 { assert !IsCRLFAt(s[1..], j - 1); }
        }
      }
      assert t' < |s[1..]| ==> IsCRLFAt(s, t' + 1);
      t' + 1
  }

  /** The first CR LF of a chunk is at position i. */
  lemma FirstCRLFAt(s: Bytes, i: nat)
    requires IsCRLFAt(s, i)
    requires forall j: nat :: j < i ==> !IsCRLFAt(s, j)
    ensures FirstCRLF(s) == i
  {
  }

  /**
   * The scan of `handleData` in command mode: move an index forward until
   * it stands on CR LF. The source loop does not stop when the chunk has no
   * CR LF, so a chunk without one is excluded.
   */
  method FindLineEnd(chunk: Bytes) returns (i: nat)
    requires HasCRLF(chunk)
    ensures IsCRLFAt(chunk, i)
    ensures forall j: nat :: j < i ==> !IsCRLFAt(chunk, j)
  {
    ghost var w := FirstCRLF(chunk);
    i := 0;
    while !(chunk[i] == CR && i + 1 < |chunk| && chunk[i + 1] == LF)
      invariant i <= w
      invariant forall j: nat :: j < i ==> !IsCRLFAt(chunk, j)
      decreases w - i
    {
      i := i + 1;
    }
  }

  /** How the payload reader left a chunk. */
  datatype ReadStatus =
    | Terminated   // stopped on CR LF with exactly the declared bytes read
    | Exhausted    // ran off the end of the chunk without a CR LF
    | BadChunk     // threw "Bad data chunk"

  datatype ScanResult = ScanResult(status: ReadStatus, bytesRead: nat)

  /**
   * What `readData` does with one chunk, in closed form. `start` is
   * `bytesRead` before the chunk and `declared` is `line.bytes`. Every byte
   * before the first CR LF is a data byte; a data byte that arrives when
   * `bytesRead > declared` throws, so at most `declared + 1 - start` of them
   * are taken. A CR LF stops the reader when `bytesRead == declared` and
   * throws otherwise.
   */
  function Scan(start: nat, declared: nat, chunk: Bytes): (r: ScanResult)
    requires start <= declared
    ensures start <= r.bytesRead <= declared + 1
    ensures r.bytesRead - start <= |chunk|
    ensures r.bytesRead - start <= FirstCRLF(chunk)
    ensures r.status == Terminated <==>
      IsCRLFAt(chunk, declared - start) && forall j: nat :: j < declared - start ==> !IsCRLFAt(chunk, j)
    ensures r.status == Terminated ==> r.bytesRead == declared
    ensures r.status == Exhausted <==> !HasCRLF(chunk) && start + |chunk| <= declared + 1
    ensures r.status == Exhausted ==> r.bytesRead == start + |chunk|
    ensures r.status == BadChunk && r.bytesRead <= declared ==> HasCRLF(chunk)
  {
    var t := FirstCRLF(chunk);
    var room := declared + 1 - start;
    if t > room then ScanResult(BadChunk, declared + 1)
    else if t == |chunk| then ScanResult(Exhausted, start + t)
    else if start + t == declared then ScanResult(Terminated, declared)
    else ScanResult(BadChunk, start + t)
  }
}
