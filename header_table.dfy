/** The `headers[]` table that the rewritten SSDP responder
    (libraries/UPnP/SSDP.cpp) and the discovery client
    (libraries/UPnP/DiscoveryManager.cpp) each keep: a header name, the
    offset where it was last found in the current packet, and its cached
    length. Also the functions that say what a scan over a packet buffer
    records. */
module HeaderScan {
  import opened Text

  /** `strncmp(h, buf + q, |h|) == 0` for a NUL-free `h` and a buffer that ends
      in NUL: the comparison stops at the first difference, so it reads no
      further than the terminator. */
  predicate MatchAt(buf: string, q: nat, h: string)
  {
    q + |h| <= |buf| && buf[q..q + |h|] == h
  }

  predicate IsLineEnd(c: char) { c == '\r' || c == '\n' }

  /** Index of the first NUL of `w`, or |w| when there is none. */
  function NulIndex(w: string): (k: nat)
    ensures k <= |w| && NUL !in w[..k]
    ensures k < |w| ==> w[k] == NUL
  {
    if w == [] || w[0] == NUL then 0
    else
      var k := 1 + NulIndex(w[1..]);
      assert w[..k] == [w[0]] + w[1..][..k - 1];
      k
  }

  /** Position `p` of the scan looks for headers at `p + 1`: every position
      does in the responder, only a CR or LF position does in the client. */
  predicate Candidate(w: string, p: nat, everyOffset: bool)
  {
    everyOffset || (p < |w| && IsLineEnd(w[p]))
  }

  /** The offset a scan over positions [0, e) records last for `h`. */
  function LastMatch(w: string, h: string, e: nat, everyOffset: bool): (r: Option<nat>)
    ensures r.Some? ==> 1 <= r.value <= e && Candidate(w, r.value - 1, everyOffset) && MatchAt(w, r.value, h)
  {
    if e == 0 then None
    else if Candidate(w, e - 1, everyOffset) && MatchAt(w, e, h) then Some(e)
    else LastMatch(w, h, e - 1, everyOffset)
  }

  /** The recorded offset is the last one that matches, and nothing is
      recorded exactly when no candidate offset matches. */
  lemma {:induction false} LastMatchIsLast(w: string, h: string, e: nat, everyOffset: bool)
    ensures var r := LastMatch(w, h, e, everyOffset);
      (r.Some? ==> forall q :: r.value < q <= e && Candidate(w, q - 1, everyOffset) ==> !MatchAt(w, q, h))
      && (r.None? ==> forall q :: 1 <= q <= e && Candidate(w, q - 1, everyOffset) ==> !MatchAt(w, q, h))
    decreases e
  {
    if e > 0 {
      LastMatchIsLast(w, h, e - 1, everyOffset);
    }
  }

  /** Any candidate offset that matches is recorded, or a later one is. */
  lemma LastMatchFinds(w: string, h: string, e: nat, everyOffset: bool, q: nat)
    requires 1 <= q <= e && Candidate(w, q - 1, everyOffset) && MatchAt(w, q, h)
    ensures LastMatch(w, h, e, everyOffset).Some?
    ensures q <= LastMatch(w, h, e, everyOffset).value
  {
    LastMatchIsLast(w, h, e, everyOffset);
  }

  /** The buffer after the scan has passed positions [0, e): each CR and LF
      there is overwritten with NUL. */
  function Cut(w: string, e: nat): (c: string)
    ensures |c| == |w|
  {
    seq(|w|, i requires 0 <= i < |w| => if i < e && IsLineEnd(w[i]) then NUL else w[i])
  }

  /** Cutting leaves every position at or after `e` alone. */
  lemma CutKeepsTail(w: string, e: nat, q: nat, h: string)
    requires e <= q
    ensures MatchAt(Cut(w, e), q, h) <==> MatchAt(w, q, h)
  {
    if q + |h| <= |w| {
      assert Cut(w, e)[q..q + |h|] == w[q..q + |h|];
    }
  }

  /** The first NUL is where no earlier byte is NUL and the byte itself is. */
  lemma NulIndexUnique(x: string, k: nat)
    requires k <= |x| && (forall j :: 0 <= j < k ==> x[j] != NUL)
    requires k < |x| ==> x[k] == NUL
    ensures NulIndex(x) == k
  {
  }

  /** A found header value: the C string that starts right after the header
      name at the recorded offset. */
  function ValueAfter(buf: string, at: Option<nat>, len: nat): (v: Option<string>)
    ensures v.Some? ==> NUL !in v.value
  {
    if at.Some? && at.value + len <= |buf| then Some(CStr(buf[at.value + len..])) else None
  }

  /** One position of a scan: when `p` is a candidate, every header that
      matches the cut buffer at `p + 1` is recorded there, and the others keep
      their marks; what the table holds is then the scan's record over
      [0, p + 1). */
  lemma ScanStep(w: string, names: seq<string>, p: nat, everyOffset: bool,
                 before: seq<Option<nat>>, after: seq<Option<nat>>, buf: string)
    requires Candidate(w, p, everyOffset) && buf == Cut(w, p + 1)
    requires |before| == |names| == |after|
    requires forall i :: 0 <= i < |names| ==> before[i] == LastMatch(w, names[i], p, everyOffset)
    requires forall i :: 0 <= i < |names| ==>
      after[i] == if MatchAt(buf, p + 1, names[i]) then Some(p + 1) else before[i]
    ensures forall i :: 0 <= i < |names| ==> after[i] == LastMatch(w, names[i], p + 1, everyOffset)
  {
    forall i | 0 <= i < |names|
      ensures after[i] == LastMatch(w, names[i], p + 1, everyOffset)
    {
      ScanStepOne(w, names[i], p, everyOffset, before[i], after[i], buf);
    }
  }

  lemma ScanStepOne(w: string, h: string, p: nat, everyOffset: bool, before: Option<nat>, after: Option<nat>, buf: string)
    requires Candidate(w, p, everyOffset) && buf == Cut(w, p + 1)
    requires before == LastMatch(w, h, p, everyOffset)
    requires after == if MatchAt(buf, p + 1, h) then Some(p + 1) else before
    ensures after == LastMatch(w, h, p + 1, everyOffset)
  {
    CutKeepsTail(w, p + 1, p + 1, h);
  }

  /** A position that is not a candidate records nothing. */
  lemma ScanSkip(w: string, names: seq<string>, p: nat, everyOffset: bool, found: seq<Option<nat>>)
    requires !Candidate(w, p, everyOffset) && |found| == |names|
    requires forall i :: 0 <= i < |names| ==> found[i] == LastMatch(w, names[i], p, everyOffset)
    ensures forall i :: 0 <= i < |names| ==> found[i] == LastMatch(w, names[i], p + 1, everyOffset)
  {
  }

  class HeaderTable {
    const names: seq<string>
    var found: seq<Option<nat>>
    var length: seq<nat>

    /** `length` is 0 until it is first computed, and then the name's length. */
    ghost predicate Valid()
      reads this
    {
      |found| == |length| == |names|
      && (forall i :: 0 <= i < |names| ==> names[i] != [] && NUL !in names[i])
      && (forall i :: 0 <= i < |names| ==> length[i] == 0 || length[i] == |names[i]|)
    }

    predicate Ready()
      reads this
    {
      |length| == |names| && forall i :: 0 <= i < |names| ==> length[i] == |names[i]|
    }

    /** The static table: names given, every mark null and every length 0. */
    constructor (names: seq<string>)
      requires forall i :: 0 <= i < |names| ==> names[i] != [] && NUL !in names[i]
      ensures Valid() && this.names == names
      ensures found == seq(|names|, _ => None) && length == seq(|names|, _ => 0)
    {
      this.names := names;
      found := seq(|names|, _ => None);
      length := seq(|names|, _ => 0);
    }

    /** The per-packet reset: clear every mark, and compute a length the
        first time only. */
    method Reset()
      requires Valid()
      modifies this
      ensures Valid() && Ready()
      ensures found == seq(|names|, _ => None)
      ensures forall i :: 0 <= i < |names| && old(length[i]) != 0 ==> length[i] == old(length[i])
    {
      var i := 0;
      while i < |names|
        invariant 0 <= i <= |names| && Valid()
        invariant forall j :: 0 <= j < i ==> found[j] == None && length[j] == |names[j]|
        invariant forall j :: 0 <= j < |names| && old(length[j]) != 0 ==> length[j] == old(length[j])
      {
        found := found[i := None];
        if length[i] == 0 {
          length := length[i := |names[i]|];
        }
        i := i + 1;
      }
    }

    /** The inner loop of a scan: every header whose name matches `buffer`
        at `q` is marked at `q`; the other marks stay. */
    method RecordMatches(buffer: array<char>, q: nat)
      requires Valid() && Ready()
      modifies this
      ensures Valid() && Ready() && length == old(length)
      ensures |found| == |names|
      ensures forall i :: 0 <= i < |names| ==>
        found[i] == if MatchAt(buffer[..], q, names[i]) then Some(q) else old(found[i])
    {
      var i := 0;
      while i < |names|
        invariant 0 <= i <= |names| && Valid() && Ready() && length == old(length)
        invariant forall j :: 0 <= j < |names| ==>
          found[j] == if j < i && MatchAt(buffer[..], q, names[j]) then Some(q) else old(found[j])
      {
        assert names[i][..length[i]] == names[i];
        if MatchAt(buffer[..], q, names[i][..length[i]]) {
          found := found[i := Some(q)];
        }
        i := i + 1;
      }
    }
  }
}
