// The `std::map<std::string, std::string>` that holds a frame's headers:
// unique keys kept in ascending order of std::string comparison, which is
// what both serializers iterate over.  It is modelled as an association list
// sorted strictly by key; ToMap gives the mathematical map it stands for.

module HeaderMap {
  import opened Common

  /** std::string `operator<`: lexicographic by character code, a proper
      prefix comes first. */
  predicate Less(a: string, b: string)
    decreases |a|
  {
    if |a| == 0 then |b| > 0
    else if |b| == 0 then false
    else if a[0] != b[0] then a[0] < b[0]
    else Less(a[1..], b[1..])
  }

  lemma {:induction false} LessIrreflexive(a: string)
    ensures !Less(a, a)
    decreases |a|
  {
    if |a| > 0 { LessIrreflexive(a[1..]); }
  }

  lemma {:induction false} LessTransitive(a: string, b: string, c: string)
    requires Less(a, b) && Less(b, c)
    ensures Less(a, c)
    decreases |a|
  {
    if |a| > 0 && a[0] == b[0] && b[0] == c[0] {
      LessTransitive(a[1..], b[1..], c[1..]);
    }
  }

  lemma {:induction false} LessTotal(a: string, b: string)
    ensures a == b || Less(a, b) || Less(b, a)
    decreases |a|
  {
    if |a| > 0 && |b| > 0 && a[0] == b[0] {
      LessTotal(a[1..], b[1..]);
      if a[1..] == b[1..] {
        assert a == [a[0]] + a[1..] && b == [b[0]] + b[1..];
      }
    }
  }

  lemma LessAsymmetric(a: string, b: string)
    requires Less(a, b)
    ensures !Less(b, a) && a != b
  {
    LessIrreflexive(a);
    if Less(b, a) { LessTransitive(a, b, a); }
  }

  predicate SortedByKey(h: seq<(string, string)>) {
    forall i, j :: 0 <= i < j < |h| ==> Less(h[i].0, h[j].0)
  }

  /** The contents of a std::map in iteration order. */
  type Headers = h: seq<(string, string)> | SortedByKey(h) witness []

  function KeySet(h: seq<(string, string)>): set<string> {
    if h == [] then {} else {h[0].0} + KeySet(h[1..])
  }

  lemma {:induction false} KeySetIndex(h: seq<(string, string)>, k: string)
    ensures k in KeySet(h) <==> exists i :: 0 <= i < |h| && h[i].0 == k
  {
    if h != [] {
      KeySetIndex(h[1..], k);
      if k in KeySet(h[1..]) {
        var i :| 0 <= i < |h[1..]| && h[1..][i].0 == k;
        assert h[i + 1].0 == k;
      }
      if exists i :: 0 <= i < |h| && h[i].0 == k {
        var i :| 0 <= i < |h| && h[i].0 == k;
        if i > 0 { assert h[1..][i - 1].0 == k; }
      }
    }
  }

  /** The map a sorted list stands for. */
  ghost function ToMap(h: Headers): (m: map<string, string>)
    ensures m.Keys == KeySet(h)
  {
    if h == [] then map[] else
      var rest: Headers := h[1..];
      KeyNotInTail(h);
      ToMap(rest)[h[0].0 := h[0].1]
  }

  lemma KeyNotInTail(h: Headers)
    requires h != []
    ensures h[0].0 !in KeySet(h[1..])
  {
    forall i | 1 <= i < |h| ensures h[i].0 != h[0].0 {
      LessAsymmetric(h[0].0, h[i].0);
    }
    KeySetIndex(h[1..], h[0].0);
  }

  /** `std::map::find`. */
  function Find(h: Headers, k: string): (r: Option<string>)
    ensures r.Some? <==> k in ToMap(h)
    ensures r.Some? ==> ToMap(h)[k] == r.value
  {
    if h == [] then None
    else if h[0].0 == k then Some(h[0].1)
    else
      var rest: Headers := h[1..];
      Find(rest, k)
  }

  /** Every key after the first is larger than the first. */
  lemma TailAboveHead(h: Headers)
    requires h != []
    ensures forall x :: x in KeySet(h[1..]) ==> Less(h[0].0, x)
  {
    forall x | x in KeySet(h[1..]) ensures Less(h[0].0, x) {
      KeySetIndex(h[1..], x);
      var i :| 0 <= i < |h[1..]| && h[1..][i].0 == x;
      assert h[i + 1].0 == x;
    }
  }

  /** A key smaller than the first key is not in the list. */
  lemma BelowHeadAbsent(h: Headers, k: string)
    requires h != [] && Less(k, h[0].0)
    ensures k !in KeySet(h)
  {
    LessAsymmetric(k, h[0].0);
    TailAboveHead(h);
  }

  /** Putting a pair in front of a list whose keys are all larger keeps it
      sorted. */
  lemma ConsSorted(x: (string, string), t: Headers)
    requires forall y :: y in KeySet(t) ==> Less(x.0, y)
    ensures SortedByKey([x] + t) && ([x] + t)[1..] == t
  {
    var r := [x] + t;
    forall i, j | 0 <= i < j < |r| ensures Less(r[i].0, r[j].0) {
      assert r[j] == t[j - 1];
      if i == 0 {
        KeySetIndex(t, r[j].0);
      } else {
        assert r[i] == t[i - 1];
      }
    }
  }

  /** Putting a pair with a smaller key in front of a list keeps it sorted. */
  lemma ConsBelowHead(x: (string, string), t: Headers)
    requires t != [] && Less(x.0, t[0].0)
    ensures SortedByKey([x] + t) && ([x] + t)[1..] == t
    ensures x.0 !in KeySet(t)
  {
    TailAboveHead(t);
    forall y | y in KeySet(t) ensures Less(x.0, y) {
      if y != t[0].0 { LessTransitive(x.0, t[0].0, y); }
    }
    ConsSorted(x, t);
    BelowHeadAbsent(t, x.0);
  }

  /** `operator[]` assignment: sets the key to the value, replacing any
      earlier value. */
  function Put(h: Headers, k: string, v: string): (r: Headers)
    ensures KeySet(r) == KeySet(h) + {k}
    ensures ToMap(r) == ToMap(h)[k := v]
  {
    if h == [] then [(k, v)]
    else if h[0].0 == k then
      var rest: Headers := h[1..];
      TailAboveHead(h);
      KeyNotInTail(h);
      ConsSorted((k, v), rest);
      [(k, v)] + rest
    else if Less(k, h[0].0) then
      ConsBelowHead((k, v), h);
      [(k, v)] + h
    else
      LessTotal(k, h[0].0);
      TailAboveHead(h);
      KeyNotInTail(h);
      var rest: Headers := h[1..];
      var tail := Put(rest, k, v);
      ConsSorted(h[0], tail);
      [h[0]] + tail
  }

  /** `std::map::insert`: adds the pair unless the key is already present, in
      which case the map is left as it was (the first value wins). */
  function Insert(h: Headers, k: string, v: string): (r: Headers)
    ensures KeySet(r) == KeySet(h) + {k}
    ensures ToMap(r) == if k in ToMap(h) then ToMap(h) else ToMap(h)[k := v]
  {
    if Find(h, k).Some? then h else Put(h, k, v)
  }

  /** `std::map::erase(key)`. */
  function Erase(h: Headers, k: string): (r: Headers)
    ensures KeySet(r) == KeySet(h) - {k}
    ensures ToMap(r) == ToMap(h) - {k}
  {
    if h == [] then []
    else if h[0].0 == k then
      var rest: Headers := h[1..];
      KeyNotInTail(h);
      rest
    else
      TailAboveHead(h);
      KeyNotInTail(h);
      var rest: Headers := h[1..];
      var tail := Erase(rest, k);
      ConsSorted(h[0], tail);
      [h[0]] + tail
  }

  /** Inserting a key larger than every present key appends it; this is how a
      parser filling the map line by line rebuilds a serialized map. */
  lemma {:induction false} InsertLargest(h: Headers, k: string, v: string)
    requires forall i :: 0 <= i < |h| ==> Less(h[i].0, k)
    ensures SortedByKey(h + [(k, v)])
    ensures Put(h, k, v) == h + [(k, v)] && Insert(h, k, v) == h + [(k, v)]
  {
    var g := h + [(k, v)];
    assert forall i :: 0 <= i < |h| ==> g[i] == h[i];
    if h != [] {
      var rest: Headers := h[1..];
      InsertLargest(rest, k, v);
      LessAsymmetric(h[0].0, k);
      assert Put(h, k, v) == [h[0]] + Put(rest, k, v);
      assert g == [h[0]] + (rest + [(k, v)]);
    }
    KeySetIndex(h, k);
    LessIrreflexive(k);
  }

  /** Two sorted lists that stand for the same map are the same list. */
  lemma {:induction false} ToMapInjective(g: Headers, h: Headers)
    requires ToMap(g) == ToMap(h)
    ensures g == h
    decreases |g|
  {
    if g != [] && h != [] {
      if g[0].0 != h[0].0 {
        assert g[0].0 in KeySet(h) && h[0].0 in KeySet(g);
        TailAboveHead(g);
        TailAboveHead(h);
        LessAsymmetric(g[0].0, h[0].0);
      }
      var gr: Headers := g[1..];
      var hr: Headers := h[1..];
      KeyNotInTail(g);
      KeyNotInTail(h);
      assert ToMap(gr) == ToMap(g) - {g[0].0};
      assert ToMap(hr) == ToMap(h) - {h[0].0};
      ToMapInjective(gr, hr);
      assert g == [g[0]] + gr && h == [h[0]] + hr;
    }
  }
}
