/**
 The bounded descending windows of the statement builder: the twelve latest
 anchor days and the four latest quarters, kept in place while facts are scanned.
 */
module Windows {
  import opened Wrappers
  import opened Ordering
  import opened Facts
  import opened Selection

  const MAX_ANCHORS: nat := 12
  const MAX_QUARTERS: nat := 4

  predicate StrictDesc(w: seq<int>) {
    forall i, j :: 0 <= i < j < |w| ==> w[i] > w[j]
  }

  /** `w` lists, strictly descending, the `cap` largest days of `s` (all of them when they fit). */
  ghost predicate Largest(s: set<int>, cap: nat, w: seq<int>) {
    && StrictDesc(w) && |w| <= cap
    && (forall d :: d in w ==> d in s)
    && (forall d :: d in s && d !in w ==> |w| == cap && Below(d, w))
  }

  predicate Below(d: int, w: seq<int>) { forall i :: 0 <= i < |w| ==> d < w[i] }

  /** How many entries of a descending window are later than `d`. */
  function Rank(w: seq<int>, d: int): (p: nat)
    ensures p <= |w|
    ensures forall i :: 0 <= i < p ==> w[i] > d
    ensures p < |w| ==> w[p] <= d
  {
    if w == [] || w[0] <= d then 0 else 1 + Rank(w[1..], d)
  }

  function Placed<T>(w: seq<T>, p: nat, x: T, cap: nat): seq<T>
    requires p <= |w|
  {
    var grown := w[..p] + [x] + w[p..];
    if |grown| <= cap then grown else grown[..cap]
  }

  function Inserted(w: seq<int>, cap: nat, d: int): seq<int> {
    if d in w then w
    else
      var p := Rank(w, d);
      if p >= cap then w else Placed(w, p, d, cap)
  }

  lemma RankUnique(w: seq<int>, d: int, p: nat)
    requires p <= |w|
    requires forall i :: 0 <= i < p ==> w[i] > d
    requires p < |w| ==> w[p] <= d
    ensures p == Rank(w, d)
  {
  }

  // ----- The window holds the largest days seen

  lemma PlacedDescends(w: seq<int>, cap: nat, d: int)
    requires StrictDesc(w) && d !in w && Rank(w, d) < cap
    ensures StrictDesc(Placed(w, Rank(w, d), d, cap))
  {
    var p := Rank(w, d);
    var r := Placed(w, p, d, cap);
    assert p < |w| ==> w[p] in w;
    forall i, j | 0 <= i < j < |r| ensures r[i] > r[j] {
      PlacedAt(w, p, d, cap, i);
      PlacedAt(w, p, d, cap, j);
    }
  }

  lemma PlacedMembers(w: seq<int>, p: nat, d: int, cap: nat, x: int)
    requires p <= |w| <= cap && p < cap
    ensures x in Placed(w, p, d, cap) ==> x in w || x == d
    ensures d in Placed(w, p, d, cap)
    ensures x in w && (|w| < cap || x in w[..cap - 1]) ==> x in Placed(w, p, d, cap)
  {
    var g, r := w[..p] + [d] + w[p..], Placed(w, p, d, cap);
    assert forall i :: 0 <= i < |r| ==> r[i] == g[i];
    assert r[p] == d;
    assert forall i :: 0 <= i < p ==> r[i] == w[i];
    assert forall i :: p < i < |r| ==> r[i] == w[i - 1];
    if x in w && (|w| < cap || x in w[..cap - 1]) {
      var k :| 0 <= k < |w| && w[k] == x && (|w| < cap || k < cap - 1);
      assert k < p ==> r[k] == x;
      assert k >= p ==> r[k + 1] == x;
    }
  }

  /** Inserting one more day keeps the window exact. */
  lemma InsertedLargest(s: set<int>, cap: nat, w: seq<int>, d: int)
    requires cap > 0 && Largest(s, cap, w)
    ensures Largest(s + {d}, cap, Inserted(w, cap, d))
  {
    var p, r := Rank(w, d), Inserted(w, cap, d);
    if d !in w && p >= cap {
      assert Below(d, w);
    } else if d !in w {
      PlacedDescends(w, cap, d);
      forall x ensures x in r ==> x in s + {d} {
        PlacedMembers(w, p, d, cap, x);
      }
      forall x | x in s + {d} && x !in r ensures |r| == cap && Below(x, r) {
        PlacedMembers(w, p, d, cap, x);
        Evicted(s, cap, w, d, x);
      }
    }
  }

  lemma Evicted(s: set<int>, cap: nat, w: seq<int>, d: int, x: int)
    requires cap > 0 && Largest(s, cap, w) && d !in w && Rank(w, d) < cap
    requires x in s && x !in Placed(w, Rank(w, d), d, cap)
    ensures |w| == cap && Below(x, Placed(w, Rank(w, d), d, cap))
  {
    PlacedMembers(w, Rank(w, d), d, cap, x);
    if x in w {
      InFrontOrLast(w, x);
    }
    BelowPlaced(w, Rank(w, d), d, x);
  }

  lemma InFrontOrLast(w: seq<int>, x: int)
    requires x in w
    ensures x in w[..|w| - 1] || x == w[|w| - 1]
  {
  }

  lemma BelowPlaced(w: seq<int>, p: nat, d: int, x: int)
    requires w != [] && StrictDesc(w) && p < |w| && w[p] < d
    requires x <= w[|w| - 1]
    ensures Below(x, Placed(w, p, d, |w|))
  {
    var r := Placed(w, p, d, |w|);
    forall i | 0 <= i < |r| ensures x < r[i] {
      assert r[i] == if i < p then w[i] else if i == p then d else w[i - 1];
      assert i < p ==> w[i] > w[p];
    }
  }

  // ----- The specification determines the window

  lemma {:induction false} DescendingSetSize(w: seq<int>)
    requires StrictDesc(w)
    ensures |set d | d in w| == |w|
  {
    if w != [] {
      DescendingSetSize(w[1..]);
      assert w == [w[0]] + w[1..];
      assert (set d | d in w) == (set d | d in w[1..]) + {w[0]};
      assert w[0] !in w[1..];
    }
  }

  lemma SubsetOfWindow(a: seq<int>, b: seq<int>)
    requires StrictDesc(a) && StrictDesc(b) && |a| <= |b|
    requires forall d :: d in b ==> d in a
    ensures forall d :: d in a ==> d in b
  {
    var sa, sb := set d | d in a, set d | d in b;
    DescendingSetSize(a);
    DescendingSetSize(b);
    assert sb <= sa;
    SameSize(sb, sa);
    forall d | d in a ensures d in b {
      assert d in sa;
    }
  }

  lemma SameSize(small: set<int>, big: set<int>)
    requires small <= big && |big| <= |small|
    ensures small == big
  {
    assert |big - small| == |big| - |small|;
  }

  lemma {:induction false} DescendingUnique(a: seq<int>, b: seq<int>)
    requires StrictDesc(a) && StrictDesc(b)
    requires forall d :: d in a <==> d in b
    ensures a == b
  {
    assert a != [] ==> a[0] in a;
    assert b != [] ==> b[0] in b;
    if a != [] && b != [] {
      assert a[0] == b[0];
      assert a == [a[0]] + a[1..] && b == [b[0]] + b[1..];
      forall d ensures d in a[1..] <==> d in b[1..] {
        assert a[0] !in a[1..] && b[0] !in b[1..];
        assert d in a <==> d == a[0] || d in a[1..];
        assert d in b <==> d == b[0] || d in b[1..];
      }
      DescendingUnique(a[1..], b[1..]);
    }
  }

  lemma LargestWithin(s: set<int>, cap: nat, a: seq<int>, b: seq<int>)
    requires Largest(s, cap, a) && Largest(s, cap, b)
    ensures forall d :: d in a ==> d in b
  {
    if x :| x in a && x !in b {
      assert |b| == cap && Below(x, b);
      forall y | y in b ensures y in a {
        assert y !in a ==> Below(y, a);
      }
      SubsetOfWindow(a, b);
    }
  }

  /** A set of days has one window, so the scan order of the facts does not matter. */
  lemma LargestUnique(s: set<int>, cap: nat, a: seq<int>, b: seq<int>)
    requires Largest(s, cap, a) && Largest(s, cap, b)
    ensures a == b
  {
    LargestWithin(s, cap, a, b);
    LargestWithin(s, cap, b, a);
    DescendingUnique(a, b);
  }

  /** A day once seen and no longer held never comes back, whatever is scanned later. */
  lemma EvictedNeverReturns(seen: set<int>, later: set<int>, cap: nat, w: seq<int>, w': seq<int>, d: int)
    requires Largest(seen, cap, w) && Largest(later, cap, w') && seen <= later
    requires d in seen && d !in w
    ensures d !in w'
  {
    if d in w' {
      assert |w| == cap && Below(d, w);
      forall e | e in w ensures e in w' {
        assert e in later;
        assert e !in w' ==> Below(e, w');
      }
      SubsetOfWindow(w', w);
      assert false;
    }
  }

  // ----- The in-place insertion

  lemma GrownWindow<T>(w: seq<T>, after: seq<T>, pos: nat, x: T, cap: nat)
    requires pos <= |w| <= cap && pos < cap
    requires |after| == if |w| < cap then |w| + 1 else cap
    requires after[pos] == x
    requires forall m :: 0 <= m < pos ==> after[m] == w[m]
    requires forall m :: pos < m < |after| ==> after[m] == w[m - 1]
    ensures after == Placed(w, pos, x, cap)
  {
    var grown := w[..pos] + [x] + w[pos..];
    assert forall m :: 0 <= m < |after| ==> after[m] == grown[m];
    assert after == grown[..|after|];
  }

  /** Shift the entries from `pos` down by one and store `x` there; the last entry of a full window falls off. */
  method ShiftIn<T>(window: array<T>, count: nat, pos: nat, x: T) returns (newCount: nat)
    requires pos <= count <= window.Length && pos < window.Length
    modifies window
    ensures newCount <= window.Length
    ensures window[..newCount] == Placed(old(window[..count]), pos, x, window.Length)
  {
    ghost var w := window[..count];
    newCount := if count < window.Length then count + 1 else window.Length;
    var k := newCount;
    while k > pos + 1
      invariant pos + 1 <= k <= newCount
      invariant forall m :: 0 <= m < k - 1 ==> window[m] == w[m]
      invariant forall m :: k <= m < newCount ==> window[m] == w[m - 1]
    {
      window[k - 1] := window[k - 2];
      k := k - 1;
    }
    window[pos] := x;
    GrownWindow(w, window[..newCount], pos, x, window.Length);
  }

  // ----- Anchor days

  method InsertAnchorDesc(anchors: array<int>, count: nat, day: int) returns (newCount: nat)
    requires anchors.Length == MAX_ANCHORS && count <= MAX_ANCHORS
    modifies anchors
    ensures newCount <= MAX_ANCHORS
    ensures anchors[..newCount] ==
            if day <= 0 then old(anchors[..count]) else Inserted(old(anchors[..count]), MAX_ANCHORS, day)
  {
    ghost var w := anchors[..count];
    newCount := count;
    if day <= 0 {
      return;
    }
    var i := 0;
    while i < count
      invariant i <= count && day !in w[..i] && anchors[..] == old(anchors[..])
    {
      if anchors[i] == day {
        assert w[i] == day;
        return;
      }
      assert w[..i + 1] == w[..i] + [anchors[i]];
      i := i + 1;
    }
    assert w[..count] == w;
    var pos := 0;
    while pos < count && anchors[pos] > day
      invariant pos <= count && anchors[..] == old(anchors[..])
      invariant forall k :: 0 <= k < pos ==> w[k] > day
    {
      assert w[pos] == anchors[pos];
      pos := pos + 1;
    }
    assert pos < count ==> w[pos] == anchors[pos];
    RankUnique(w, day, pos);
    if pos >= MAX_ANCHORS {
      return;
    }
    newCount := ShiftIn(anchors, count, pos, day);
  }

  // ----- Quarters

  function Ends(qs: seq<Fact>): (r: seq<int>)
    ensures |r| == |qs| && forall i :: 0 <= i < |qs| ==> r[i] == qs[i].end
  {
    seq(|qs|, i requires 0 <= i < |qs| => qs[i].end)
  }

  function FiledLater(): (Fact, Fact) -> bool { (a: Fact, b: Fact) => a.available > b.available }

  function EndingOn(ok: Fact -> bool, day: int): Fact -> bool { (f: Fact) => ok(f) && f.end == day }

  /** Days on which some eligible fact ends. */
  ghost function EndDays(facts: seq<Fact>, ok: Fact -> bool): set<int> {
    set f | f in facts && ok(f) :: f.end
  }

  /** The window over `facts`: the four largest end days, each with its first latest-filed eligible fact. */
  ghost predicate QuarterWindow(facts: seq<Fact>, ok: Fact -> bool, qs: seq<Fact>) {
    && Largest(EndDays(facts, ok), MAX_QUARTERS, Ends(qs))
    && forall k :: 0 <= k < |qs| ==> HoldsLatest(facts, ok, qs[k])
  }

  predicate HoldsLatest(facts: seq<Fact>, ok: Fact -> bool, q: Fact) {
    Latest(facts, EndingOn(ok, q.end), FiledLater()) == Some(q)
  }

  function SlotOf(qs: seq<Fact>, day: int): (k: nat)
    requires day in Ends(qs)
    ensures k < |qs| && qs[k].end == day && forall j :: 0 <= j < k ==> qs[j].end != day
  {
    if qs[0].end == day then 0
    else
      assert Ends(qs) == [qs[0].end] + Ends(qs[1..]);
      1 + SlotOf(qs[1..], day)
  }

  function QuarterInserted(qs: seq<Fact>, f: Fact): seq<Fact> {
    if f.end in Ends(qs) then
      var k := SlotOf(qs, f.end);
      if f.available > qs[k].available then qs[k := f] else qs
    else
      var p := Rank(Ends(qs), f.end);
      if p >= MAX_QUARTERS then qs else Placed(qs, p, f, MAX_QUARTERS)
  }

  lemma PlacedEnds(qs: seq<Fact>, p: nat, f: Fact, cap: nat)
    requires p <= |qs|
    ensures Ends(Placed(qs, p, f, cap)) == Placed(Ends(qs), p, f.end, cap)
  {
    var g, h := qs[..p] + [f] + qs[p..], Ends(qs)[..p] + [f.end] + Ends(qs)[p..];
    assert |g| == |h|;
    assert forall i :: 0 <= i < |g| ==> g[i].end == h[i];
  }

  lemma QuarterInsertedEnds(qs: seq<Fact>, f: Fact)
    ensures Ends(QuarterInserted(qs, f)) == Inserted(Ends(qs), MAX_QUARTERS, f.end)
  {
    if f.end !in Ends(qs) {
      PlacedEnds(qs, Rank(Ends(qs), f.end), f, MAX_QUARTERS);
    }
  }

  lemma EndDaysStep(facts: seq<Fact>, ok: Fact -> bool, f: Fact)
    ensures EndDays(facts + [f], ok) == EndDays(facts, ok) + if ok(f) then {f.end} else {}
  {
  }

  lemma HoldsStep(facts: seq<Fact>, ok: Fact -> bool, f: Fact, q: Fact)
    requires HoldsLatest(facts, ok, q)
    requires !ok(f) || f.end != q.end || f.available <= q.available
    ensures HoldsLatest(facts + [f], ok, q)
  {
    assert (facts + [f])[..|facts|] == facts;
  }

  lemma HoldsNew(facts: seq<Fact>, ok: Fact -> bool, f: Fact)
    requires ok(f)
    requires var r := Latest(facts, EndingOn(ok, f.end), FiledLater()); r.None? || f.available > r.value.available
    ensures HoldsLatest(facts + [f], ok, f)
  {
    assert (facts + [f])[..|facts|] == facts;
  }

  lemma {:induction false} UnseenDay(facts: seq<Fact>, ok: Fact -> bool, day: int)
    requires day !in EndDays(facts, ok)
    ensures Latest(facts, EndingOn(ok, day), FiledLater()).None?
  {
    if facts != [] {
      var n := |facts| - 1;
      assert facts == facts[..n] + [facts[n]];
      UnseenDay(facts[..n], ok, day);
      assert facts[n] in facts;
    }
  }

  /** Scanning one more fact keeps the window exact. */
  lemma QuarterWindowStep(facts: seq<Fact>, ok: Fact -> bool, qs: seq<Fact>, f: Fact)
    requires QuarterWindow(facts, ok, qs)
    ensures QuarterWindow(facts + [f], ok, if ok(f) then QuarterInserted(qs, f) else qs)
  {
    EndDaysStep(facts, ok, f);
    if !ok(f) {
      forall k | 0 <= k < |qs| ensures HoldsLatest(facts + [f], ok, qs[k]) {
        HoldsStep(facts, ok, f, qs[k]);
      }
    } else {
      var r := QuarterInserted(qs, f);
      QuarterInsertedEnds(qs, f);
      InsertedLargest(EndDays(facts, ok), MAX_QUARTERS, Ends(qs), f.end);
      forall k | 0 <= k < |r| ensures HoldsLatest(facts + [f], ok, r[k]) {
        QuarterKept(facts, ok, qs, f, k);
      }
    }
  }

  lemma AmendedQuarter(facts: seq<Fact>, ok: Fact -> bool, qs: seq<Fact>, f: Fact, k: nat)
    requires QuarterWindow(facts, ok, qs) && ok(f) && f.end in Ends(qs) && k < |qs|
    ensures HoldsLatest(facts + [f], ok, QuarterInserted(qs, f)[k])
  {
    var slot := SlotOf(qs, f.end);
    assert HoldsLatest(facts, ok, qs[slot]) && HoldsLatest(facts, ok, qs[k]);
    assert k != slot ==> Ends(qs)[k] != Ends(qs)[slot];
    if k == slot && f.available > qs[slot].available {
      HoldsNew(facts, ok, f);
    } else {
      HoldsStep(facts, ok, f, qs[k]);
    }
  }

  lemma OtherQuarter(facts: seq<Fact>, ok: Fact -> bool, qs: seq<Fact>, f: Fact, j: nat)
    requires QuarterWindow(facts, ok, qs) && f.end !in Ends(qs) && j < |qs|
    ensures HoldsLatest(facts + [f], ok, qs[j])
  {
    assert Ends(qs)[j] != f.end;
    assert HoldsLatest(facts, ok, qs[j]);
    HoldsStep(facts, ok, f, qs[j]);
  }

  lemma PlacedAt<T>(w: seq<T>, p: nat, x: T, cap: nat, k: nat)
    requires p <= |w| && k < |Placed(w, p, x, cap)|
    ensures k < p ==> Placed(w, p, x, cap)[k] == w[k]
    ensures k == p ==> Placed(w, p, x, cap)[k] == x
    ensures k > p ==> k - 1 < |w| && Placed(w, p, x, cap)[k] == w[k - 1]
  {
  }

  lemma QuarterKept(facts: seq<Fact>, ok: Fact -> bool, qs: seq<Fact>, f: Fact, k: nat)
    requires QuarterWindow(facts, ok, qs) && ok(f) && k < |QuarterInserted(qs, f)|
    ensures HoldsLatest(facts + [f], ok, QuarterInserted(qs, f)[k])
  {
    var p := Rank(Ends(qs), f.end);
    if f.end in Ends(qs) {
      AmendedQuarter(facts, ok, qs, f, k);
    } else if p >= MAX_QUARTERS {
      OtherQuarter(facts, ok, qs, f, k);
    } else {
      PlacedAt(qs, p, f, MAX_QUARTERS, k);
      if k == p {
        FreshDay(facts, ok, qs, f.end);
        UnseenDay(facts, ok, f.end);
        HoldsNew(facts, ok, f);
      } else {
        OtherQuarter(facts, ok, qs, f, if k < p then k else k - 1);
      }
    }
  }

  lemma FreshDay(facts: seq<Fact>, ok: Fact -> bool, qs: seq<Fact>, day: int)
    requires QuarterWindow(facts, ok, qs)
    requires day !in Ends(qs) && Rank(Ends(qs), day) < MAX_QUARTERS
    ensures day !in EndDays(facts, ok)
  {
    assert day in EndDays(facts, ok) ==> |qs| == MAX_QUARTERS && Below(day, Ends(qs));
  }

  // ----- What a whole scan leaves

  function Window(facts: seq<Fact>, ok: Fact -> bool): seq<Fact> {
    if facts == [] then []
    else
      var n := |facts| - 1;
      if ok(facts[n]) then QuarterInserted(Window(facts[..n], ok), facts[n]) else Window(facts[..n], ok)
  }

  function AnchorDays(facts: seq<Fact>, ok: Fact -> bool): seq<int> {
    if facts == [] then []
    else
      var n := |facts| - 1;
      if ok(facts[n]) && facts[n].end > 0 then Inserted(AnchorDays(facts[..n], ok), MAX_ANCHORS, facts[n].end)
      else AnchorDays(facts[..n], ok)
  }

  /** After any scan the quarters are the four largest end days, each with its first latest-filed fact. */
  lemma {:induction false} WindowExact(facts: seq<Fact>, ok: Fact -> bool)
    ensures QuarterWindow(facts, ok, Window(facts, ok))
  {
    if facts == [] {
      assert Ends(Window(facts, ok)) == [];
    } else {
      var n := |facts| - 1;
      WindowExact(facts[..n], ok);
      QuarterWindowStep(facts[..n], ok, Window(facts[..n], ok), facts[n]);
      assert facts == facts[..n] + [facts[n]];
    }
  }

  /** After any scan the anchors are the twelve largest end days of eligible facts. */
  lemma {:induction false} AnchorDaysExact(facts: seq<Fact>, ok: Fact -> bool)
    requires forall f :: ok(f) ==> f.end > 0
    ensures Largest(EndDays(facts, ok), MAX_ANCHORS, AnchorDays(facts, ok))
  {
    if facts != [] {
      var n := |facts| - 1;
      AnchorDaysExact(facts[..n], ok);
      EndDaysStep(facts[..n], ok, facts[n]);
      InsertedLargest(EndDays(facts[..n], ok), MAX_ANCHORS, AnchorDays(facts[..n], ok), facts[n].end);
      assert facts == facts[..n] + [facts[n]];
    }
  }

  lemma {:induction false} WindowUsable(facts: seq<Fact>, ok: Fact -> bool)
    ensures forall f :: f in Window(facts, ok) ==> f in facts && ok(f)
  {
    if facts != [] {
      var n := |facts| - 1;
      WindowUsable(facts[..n], ok);
      assert facts == facts[..n] + [facts[n]];
      InsertedFrom(Window(facts[..n], ok), facts[n]);
    }
  }

  lemma InsertedFrom(qs: seq<Fact>, f: Fact)
    ensures forall g :: g in QuarterInserted(qs, f) ==> g in qs || g == f
  {
  }

  /** The specification determines the window: anything that meets it is what the scan leaves. */
  lemma WindowUnique(facts: seq<Fact>, ok: Fact -> bool, qs: seq<Fact>)
    requires QuarterWindow(facts, ok, qs)
    ensures qs == Window(facts, ok)
  {
    var w := Window(facts, ok);
    WindowExact(facts, ok);
    LargestUnique(EndDays(facts, ok), MAX_QUARTERS, Ends(qs), Ends(w));
    assert |qs| == |Ends(qs)| == |w|;
    forall k | 0 <= k < |qs| ensures qs[k] == w[k] {
      assert Ends(qs)[k] == Ends(w)[k];
      assert HoldsLatest(facts, ok, qs[k]) && HoldsLatest(facts, ok, w[k]);
    }
  }

  /** Without ties on day and filing time among eligible facts, the scan order does not matter. */
  lemma WindowOrderFree(facts: seq<Fact>, facts': seq<Fact>, ok: Fact -> bool)
    requires forall f :: f in facts <==> f in facts'
    requires forall f, g :: f in facts && g in facts && ok(f) && ok(g) && f.end == g.end && f != g ==>
               f.available != g.available
    ensures Window(facts, ok) == Window(facts', ok)
  {
    var w := Window(facts, ok);
    WindowExact(facts, ok);
    assert EndDays(facts, ok) == EndDays(facts', ok);
    forall k | 0 <= k < |w| ensures HoldsLatest(facts', ok, w[k]) {
      assert HoldsLatest(facts, ok, w[k]);
      LatestOrderFree(facts, facts', EndingOn(ok, w[k].end), FiledLater());
    }
    WindowUnique(facts', ok, w);
  }

  /** One of the four largest end days. */
  ghost predicate WindowDay(facts: seq<Fact>, ok: Fact -> bool, day: int) {
    exists w :: Largest(EndDays(facts, ok), MAX_QUARTERS, w) && day in w
  }

  /** No two latest-filed facts of one of those days. */
  ghost predicate OneLatestEachDay(facts: seq<Fact>, ok: Fact -> bool) {
    forall day :: WindowDay(facts, ok, day) ==> OneTop(facts, EndingOn(ok, day), FiledLater())
  }

  /** The window is the same in every scan order. */
  ghost predicate WindowAnyOrder(facts: seq<Fact>, ok: Fact -> bool) {
    forall facts' :: multiset(facts') == multiset(facts) ==> Window(facts', ok) == Window(facts, ok)
  }

  lemma WindowHolds(facts: seq<Fact>, ok: Fact -> bool, day: int)
    requires WindowDay(facts, ok, day)
    ensures exists k :: 0 <= k < |Window(facts, ok)| && Window(facts, ok)[k].end == day
                        && Latest(facts, EndingOn(ok, day), FiledLater()) == Some(Window(facts, ok)[k])
  {
    var w :| Largest(EndDays(facts, ok), MAX_QUARTERS, w) && day in w;
    WindowExact(facts, ok);
    LargestUnique(EndDays(facts, ok), MAX_QUARTERS, w, Ends(Window(facts, ok)));
    var k :| 0 <= k < |w| && w[k] == day;
    assert HoldsLatest(facts, ok, Window(facts, ok)[k]);
  }

  lemma SameLatestSameTop(facts: seq<Fact>, ok: Fact -> bool, day: int, x: Fact)
    requires WindowAnyOrder(facts, ok) && WindowDay(facts, ok, day) && Top(facts, EndingOn(ok, day), FiledLater(), x)
    ensures Latest(facts, EndingOn(ok, day), FiledLater()) == Some(x)
  {
    var ys := TopFirst(facts, EndingOn(ok, day), FiledLater(), x);
    MultisetMember(ys, facts);
    assert EndDays(ys, ok) == EndDays(facts, ok);
    WindowHolds(ys, ok, day);
    WindowHolds(facts, ok, day);
    var i :| 0 <= i < |Window(ys, ok)| && Window(ys, ok)[i].end == day && Window(ys, ok)[i] == x;
    var j :| 0 <= j < |Window(facts, ok)| && Window(facts, ok)[j].end == day
             && Latest(facts, EndingOn(ok, day), FiledLater()) == Some(Window(facts, ok)[j]);
    WindowExact(facts, ok);
    assert Ends(Window(facts, ok))[i] == Ends(Window(facts, ok))[j];
  }

  lemma OneLatestSuffices(facts: seq<Fact>, facts': seq<Fact>, ok: Fact -> bool)
    requires OneLatestEachDay(facts, ok) && multiset(facts') == multiset(facts)
    ensures Window(facts', ok) == Window(facts, ok)
  {
    var w := Window(facts, ok);
    WindowExact(facts, ok);
    MultisetMember(facts', facts);
    assert EndDays(facts, ok) == EndDays(facts', ok);
    forall k | 0 <= k < |w| ensures HoldsLatest(facts', ok, w[k]) {
      assert HoldsLatest(facts, ok, w[k]) && Ends(w)[k] == w[k].end;
      assert WindowDay(facts, ok, w[k].end);
      OneTopSuffices(facts, facts', EndingOn(ok, w[k].end), FiledLater());
    }
    WindowUnique(facts', ok, w);
  }

  /** The window is the same in every scan order exactly when no day it covers has two latest-filed facts. */
  lemma WindowOrderFreeExactly(facts: seq<Fact>, ok: Fact -> bool)
    ensures WindowAnyOrder(facts, ok) <==> OneLatestEachDay(facts, ok)
  {
    if OneLatestEachDay(facts, ok) {
      forall facts' | multiset(facts') == multiset(facts) ensures Window(facts', ok) == Window(facts, ok) {
        OneLatestSuffices(facts, facts', ok);
      }
    }
    if WindowAnyOrder(facts, ok) {
      forall day | WindowDay(facts, ok, day) ensures OneTop(facts, EndingOn(ok, day), FiledLater()) {
        forall x, y | Top(facts, EndingOn(ok, day), FiledLater(), x) && Top(facts, EndingOn(ok, day), FiledLater(), y)
          ensures x == y
        {
          SameLatestSameTop(facts, ok, day, x);
          SameLatestSameTop(facts, ok, day, y);
        }
      }
    }
  }

  method InsertQuarterDesc(fact: Fact, quarters: array<Fact>, count: nat) returns (newCount: nat)
    requires quarters.Length == MAX_QUARTERS && count <= MAX_QUARTERS
    modifies quarters
    ensures newCount <= MAX_QUARTERS
    ensures quarters[..newCount] == QuarterInserted(old(quarters[..count]), fact)
  {
    ghost var qs := quarters[..count];
    newCount := count;
    var i := 0;
    while i < count
      invariant i <= count && quarters[..] == old(quarters[..])
      invariant forall k :: 0 <= k < i ==> qs[k].end != fact.end
    {
      if quarters[i].end == fact.end {
        assert Ends(qs)[i] == fact.end;
        assert i == SlotOf(qs, fact.end);
        if fact.available > quarters[i].available {
          quarters[i] := fact;
        }
        assert quarters[..count] == QuarterInserted(qs, fact);
        return;
      }
      i := i + 1;
    }
    assert fact.end !in Ends(qs);
    var pos := 0;
    while pos < count && quarters[pos].end > fact.end
      invariant pos <= count && quarters[..] == old(quarters[..])
      invariant forall k :: 0 <= k < pos ==> qs[k].end > fact.end
    {
      pos := pos + 1;
    }
    RankUnique(Ends(qs), fact.end, pos);
    if pos >= MAX_QUARTERS {
      return;
    }
    newCount := ShiftIn(quarters, count, pos, fact);
  }

  method ScanQuarters(facts: seq<Fact>, ok: Fact -> bool) returns (quarters: array<Fact>, count: nat)
    ensures fresh(quarters) && quarters.Length == MAX_QUARTERS && count <= MAX_QUARTERS
    ensures quarters[..count] == Window(facts, ok)
  {
    quarters := new Fact[MAX_QUARTERS];
    count := 0;
    for i := 0 to |facts|
      invariant count <= MAX_QUARTERS
      invariant quarters[..count] == Window(facts[..i], ok)
    {
      assert facts[..i + 1][..i] == facts[..i];
      if ok(facts[i]) {
        count := InsertQuarterDesc(facts[i], quarters, count);
      }
    }
    assert facts[..|facts|] == facts;
  }

  method ScanAnchors(facts: seq<Fact>, ok: Fact -> bool) returns (anchors: array<int>, count: nat)
    ensures fresh(anchors) && anchors.Length == MAX_ANCHORS && count <= MAX_ANCHORS
    ensures anchors[..count] == AnchorDays(facts, ok)
  {
    anchors := new int[MAX_ANCHORS];
    count := 0;
    for i := 0 to |facts|
      invariant count <= MAX_ANCHORS
      invariant anchors[..count] == AnchorDays(facts[..i], ok)
    {
      assert facts[..i + 1][..i] == facts[..i];
      if ok(facts[i]) {
        count := InsertAnchorDesc(anchors, count, facts[i].end);
      }
    }
    assert facts[..|facts|] == facts;
  }
}
