/**
 * The sliding window of recent STT transcripts: each `add` appends the text with the
 * current time, then evicts from the front while the oldest entry is more than
 * `windowMs` old. The source keeps texts and times in two deques moved in lockstep;
 * here they are one sequence of pairs, so their lengths agree by construction.
 */
module SttBuffer {

  datatype Entry = Entry(text: string, at: int)

  datatype Buffer = Buffer(windowMs: int, entries: seq<Entry>)

  function NewBuffer(windowMs: int): (b: Buffer)
    ensures b.windowMs == windowMs && b.entries == []
  {
    Buffer(windowMs, [])
  }

  /** The timestamps never decrease from front to back. */
  predicate Chronological(q: seq<Entry>) {
    forall i, j :: 0 <= i < j < |q| ==> q[i].at <= q[j].at
  }

  predicate Expired(e: Entry, now: int, windowMs: int) {
    now - e.at > windowMs
  }

  /** The eviction loop of `add`, as a reference definition. */
  function Evict(q: seq<Entry>, now: int, windowMs: int): (r: seq<Entry>)
    ensures |r| <= |q| && r == q[|q| - |r|..]
    ensures forall i :: 0 <= i < |q| - |r| ==> Expired(q[i], now, windowMs)
    ensures r != [] ==> !Expired(r[0], now, windowMs)
  {
    if q != [] && Expired(q[0], now, windowMs) then Evict(q[1..], now, windowMs) else q
  }

  /** `add`: append at the tail, then drop expired entries from the front. */
  method Add(b: Buffer, stt: string, now: int) returns (r: Buffer)
    ensures r.windowMs == b.windowMs
    ensures r.entries == Evict(b.entries + [Entry(stt, now)], now, b.windowMs)
  {
    var q := b.entries + [Entry(stt, now)];
    ghost var all := q;
    while q != [] && now - q[0].at > b.windowMs
      invariant |q| <= |all| && q == all[|all| - |q|..]
      invariant Evict(q, now, b.windowMs) == Evict(all, now, b.windowMs)
      decreases |q|
    {
      q := q[1..];
    }
    r := Buffer(b.windowMs, q);
  }

  /** `getTexts`: the texts in insertion order. */
  function Texts(b: Buffer): (r: seq<string>)
    ensures |r| == |b.entries|
    ensures forall i :: 0 <= i < |r| ==> r[i] == b.entries[i].text
  {
    seq(|b.entries|, i requires 0 <= i < |b.entries| => b.entries[i].text)
  }

  function Join(xs: seq<string>, sep: string): string {
    if xs == [] then []
    else if |xs| == 1 then xs[0]
    else Join(xs[..|xs| - 1], sep) + sep + xs[|xs| - 1]
  }

  /** `getJoined`: the texts joined with ", ". */
  function Joined(b: Buffer): (r: string)
    ensures b.entries == [] ==> r == []
    ensures |b.entries| == 1 ==> r == b.entries[0].text
  {
    Join(Texts(b), ", ")
  }

  // ----- properties -----

  /** The new text is the last entry whenever the window is not negative. */
  lemma NewestRetained(q: seq<Entry>, stt: string, now: int, windowMs: int)
    requires windowMs >= 0
    ensures var r := Evict(q + [Entry(stt, now)], now, windowMs);
      r != [] && r[|r| - 1] == Entry(stt, now)
  {
    var all := q + [Entry(stt, now)];
    var r := Evict(all, now, windowMs);
    assert !Expired(all[|all| - 1], now, windowMs);
    assert r[|r| - 1] == all[|all| - 1];
  }

  /** With a negative window even the new entry is older than the window, so everything goes. */
  lemma NegativeWindowEmpties(q: seq<Entry>, stt: string, now: int, windowMs: int)
    requires windowMs < 0 && forall i :: 0 <= i < |q| ==> q[i].at <= now
    ensures Evict(q + [Entry(stt, now)], now, windowMs) == []
  {
  }

  /** On a chronological buffer with a clock that does not go back, every survivor is inside the window and the order stays chronological. */
  lemma SurvivorsInWindow(q: seq<Entry>, stt: string, now: int, windowMs: int)
    requires Chronological(q) && forall i :: 0 <= i < |q| ==> q[i].at <= now
    ensures var r := Evict(q + [Entry(stt, now)], now, windowMs);
      Chronological(r) && forall i :: 0 <= i < |r| ==> !Expired(r[i], now, windowMs)
  {
    var all := q + [Entry(stt, now)];
    SnocChronological(q, Entry(stt, now));
    var r := Evict(all, now, windowMs);
    SuffixChronological(all, |all| - |r|);
    FirstBoundsAll(r, now, windowMs);
  }

  lemma SnocChronological(q: seq<Entry>, e: Entry)
    requires Chronological(q) && forall i :: 0 <= i < |q| ==> q[i].at <= e.at
    ensures Chronological(q + [e])
  {
    var all := q + [e];
    forall i, j | 0 <= i < j < |all| ensures all[i].at <= all[j].at {
      assert all[i] == q[i];
      if j < |q| { assert all[j] == q[j]; }
    }
  }

  lemma SuffixChronological(q: seq<Entry>, k: int)
    requires Chronological(q) && 0 <= k <= |q|
    ensures Chronological(q[k..])
  {
    var r := q[k..];
    forall i, j | 0 <= i < j < |r| ensures r[i].at <= r[j].at {
      assert r[i] == q[k + i] && r[j] == q[k + j];
    }
  }

  /** In chronological order, a first entry inside the window puts every entry inside it. */
  lemma FirstBoundsAll(r: seq<Entry>, now: int, windowMs: int)
    requires Chronological(r) && (r != [] ==> !Expired(r[0], now, windowMs))
    ensures forall i :: 0 <= i < |r| ==> !Expired(r[i], now, windowMs)
  {
    forall i | 0 <= i < |r| ensures !Expired(r[i], now, windowMs) {
      if i > 0 { assert r[0].at <= r[i].at; }
    }
  }

  /** Joining one more text appends the separator and that text. */
  lemma JoinSnoc(xs: seq<string>, x: string, sep: string)
    requires xs != []
    ensures Join(xs + [x], sep) == Join(xs, sep) + sep + x
  {
    assert (xs + [x])[..|xs|] == xs;
  }

  /** After `add`, the joined text of a buffer that evicted nothing ends with ", " and the new text. */
  lemma JoinedAfterAdd(b: Buffer, stt: string, now: int)
    requires b.entries != []
    requires Evict(b.entries + [Entry(stt, now)], now, b.windowMs) == b.entries + [Entry(stt, now)]
    ensures Joined(Buffer(b.windowMs, Evict(b.entries + [Entry(stt, now)], now, b.windowMs))) == Joined(b) + ", " + stt
  {
    var nb := Buffer(b.windowMs, b.entries + [Entry(stt, now)]);
    assert Texts(nb) == Texts(b) + [stt];
    JoinSnoc(Texts(b), stt, ", ");
  }
}
