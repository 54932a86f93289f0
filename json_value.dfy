/** The value tree the formatter receives. Literal texts are inputs: the
    formatter obtains them from `json.dumps`, which this model does not
    reimplement. Dict entries keep their input order; keys may repeat and
    may be non-strings, exactly as a Python dict built from them could
    present them (after `str()` a non-string key can clash with a string key). */
module JsonValue {
  import opened Text

  /** A dict key: its `str()` text and the quoted literal `json.dumps`
      makes of that text. A non-string key is converted (with a warning). */
  datatype Key =
    | StrKey(text: string, quoted: string)
    | OtherKey(text: string, quoted: string)

  datatype Json =
    | Null
    | Bool(b: bool)
    | Int(lit: string)
    | Float(lit: string)
    | Str(lit: string)
    | List(items: seq<Json>)
    | Dict(entries: seq<(Key, Json)>)

  /** The `RuntimeWarning`s `format_dict` emits. */
  datatype Warning =
    | ConvertedKey(text: string)
    | DuplicateKey(text: string)

  predicate IsPrimitive(v: Json) {
    !v.List? && !v.Dict?
  }

  /** The text `json.dumps` produces for a primitive. */
  function Literal(v: Json): string
    requires IsPrimitive(v)
  {
    match v
    case Null => "null"
    case Bool(b) => if b then "true" else "false"
    case Int(lit) => lit
    case Float(lit) => lit
    case Str(lit) => lit
  }

  // ---------------------------------------------------------------------
  // Key handling (format_dict): a repeated key overwrites the earlier
  // entry in the earlier entry's position.

  /** The key texts of a dict's entries, in input order. */
  function KeyTexts(es: seq<(Key, Json)>): (ks: seq<string>)
    ensures |ks| == |es|
    ensures forall i :: 0 <= i < |es| ==> ks[i] == es[i].0.text
  {
    seq(|es|, i requires 0 <= i < |es| => es[i].0.text)
  }

  /** Position of the first slot whose key text is t, or |slots|. */
  function SlotOf(ks: seq<string>, slots: seq<nat>, t: string): (p: nat)
    requires forall i :: 0 <= i < |slots| ==> slots[i] < |ks|
    ensures p <= |slots|
    ensures p < |slots| ==> ks[slots[p]] == t
    ensures forall i :: 0 <= i < p ==> ks[slots[i]] != t
    decreases |slots|
  {
    if |slots| == 0 then 0
    else if ks[slots[0]] == t then 0
    else 1 + SlotOf(ks, slots[1..], t)
  }

  /** The entry indices that survive in `items`: one slot per distinct key
      text, in the order `items.append` created them, holding the index of
      the entry last written there. */
  function Dedup(ks: seq<string>): (slots: seq<nat>)
    ensures forall i :: 0 <= i < |slots| ==> slots[i] < |ks|
    ensures |slots| <= |ks|
    ensures |ks| > 0 ==> |slots| > 0
    decreases |ks|
  {
    if |ks| == 0 then []
    else Place(ks, Dedup(ks[..|ks| - 1]), |ks| - 1)
  }

  /** Entry n written into the slots of the entries before it: over the
      slot already holding its key text, or into a new slot at the end. */
  function Place(ks: seq<string>, prev: seq<nat>, n: nat): (slots: seq<nat>)
    requires n < |ks|
    requires forall i :: 0 <= i < |prev| ==> prev[i] < n
    ensures forall i :: 0 <= i < |slots| ==> slots[i] <= n
    ensures 0 < |slots| <= |prev| + 1
  {
    var p := SlotOf(ks, prev, ks[n]);
    if p < |prev| then prev[p := n] else prev + [n]
  }

  /** Index of the first entry whose key text is t, or |ks|. */
  function FirstIndex(ks: seq<string>, t: string): (k: nat)
    ensures k <= |ks|
    ensures k < |ks| ==> ks[k] == t
    ensures forall i :: 0 <= i < k ==> ks[i] != t
    decreases |ks|
  {
    if |ks| == 0 then 0
    else if ks[0] == t then 0
    else 1 + FirstIndex(ks[1..], t)
  }

  predicate SlotsInRange(ks: seq<string>, slots: seq<nat>) {
    forall i :: 0 <= i < |slots| ==> slots[i] < |ks|
  }

  /** No key text occupies two slots. */
  predicate DistinctKeys(ks: seq<string>, slots: seq<nat>)
    requires SlotsInRange(ks, slots)
  {
    forall p, q :: 0 <= p < q < |slots| ==> ks[slots[p]] != ks[slots[q]]
  }

  /** Every key text of the input has a slot. */
  predicate CoversKeys(ks: seq<string>, slots: seq<nat>)
    requires SlotsInRange(ks, slots)
  {
    forall j :: 0 <= j < |ks| ==> SlotOf(ks, slots, ks[j]) < |slots|
  }

  /** Each slot holds the last entry written under its key. */
  predicate HoldsLastWrite(ks: seq<string>, slots: seq<nat>)
    requires SlotsInRange(ks, slots)
  {
    forall p, j :: 0 <= p < |slots| && slots[p] < j < |ks| ==> ks[j] != ks[slots[p]]
  }

  /** Slots are ordered by the first occurrence of their key. */
  predicate FirstOccurrenceOrder(ks: seq<string>, slots: seq<nat>)
    requires SlotsInRange(ks, slots)
  {
    forall p, q :: 0 <= p < q < |slots| ==> FirstIndex(ks, ks[slots[p]]) < FirstIndex(ks, ks[slots[q]])
  }

  /** Key handling: the surviving slots are exactly the distinct key texts,
      in first-occurrence order, each holding the last entry with that key. */
  lemma DedupCorrect(ks: seq<string>)
    ensures SlotsInRange(ks, Dedup(ks))
    ensures DistinctKeys(ks, Dedup(ks))
    ensures CoversKeys(ks, Dedup(ks))
    ensures HoldsLastWrite(ks, Dedup(ks))
    ensures FirstOccurrenceOrder(ks, Dedup(ks))
  {
    DedupDistinct(ks);
    DedupCovers(ks);
    DedupLastWrite(ks);
    DedupOrder(ks);
  }

  lemma {:induction false} DedupDistinct(ks: seq<string>)
    ensures DistinctKeys(ks, Dedup(ks))
    decreases |ks|
  {
    if |ks| > 0 {
      var n := |ks| - 1;
      var e := ks[..n];
      DedupDistinct(e);
      var prev := Dedup(e);
      var p := SlotOf(ks, prev, ks[n]);
      var slots := Dedup(ks);
      assert forall i :: 0 <= i < |prev| ==> e[prev[i]] == ks[prev[i]];
      if p < |prev| {
        assert forall i :: 0 <= i < |slots| ==> ks[slots[i]] == ks[prev[i]];
      } else {
        assert slots == prev + [n];
      }
    }
  }

  lemma {:induction false} DedupCovers(ks: seq<string>)
    ensures CoversKeys(ks, Dedup(ks))
    decreases |ks|
  {
    if |ks| > 0 {
      var e := ks[..|ks| - 1];
      DedupCovers(e);
      forall j | 0 <= j < |ks|
        ensures SlotOf(ks, Dedup(ks), ks[j]) < |Dedup(ks)|
      {
        PlaceCovers(ks, Dedup(e), j);
      }
    }
  }

  /** Once the last entry is placed, every key text still has a slot,
      given that every key of the shorter input had one. */
  lemma {:induction false} PlaceCovers(ks: seq<string>, prev: seq<nat>, j: nat)
    requires 0 <= j < |ks|
    requires forall i :: 0 <= i < |prev| ==> prev[i] < |ks| - 1
    requires CoversKeys(ks[..|ks| - 1], prev)
    ensures SlotOf(ks, Place(ks, prev, |ks| - 1), ks[j]) < |Place(ks, prev, |ks| - 1)|
  {
    var n := |ks| - 1;
    var e := ks[..n];
    var p := SlotOf(ks, prev, ks[n]);
    var slots := Place(ks, prev, n);
    if j < n {
      assert forall i :: 0 <= i < |prev| ==> e[prev[i]] == ks[prev[i]];
      SlotOfAgree(e, ks, prev, e[j]);
      var r := SlotOf(e, prev, e[j]);
      assert ks[slots[r]] == ks[j] by {
        if r == p && p < |prev| {
          assert ks[slots[r]] == ks[n] == ks[prev[p]];
        }
      }
      SlotOfFound(ks, slots, r, ks[j]);
    } else {
      SlotOfFound(ks, slots, if p < |prev| then p else |prev|, ks[j]);
    }
  }

  lemma {:induction false} DedupLastWrite(ks: seq<string>)
    ensures HoldsLastWrite(ks, Dedup(ks))
    decreases |ks|
  {
    if |ks| > 0 {
      var n := |ks| - 1;
      var e := ks[..n];
      DedupLastWrite(e);
      DedupDistinct(e);
      var prev := Dedup(e);
      var p := SlotOf(ks, prev, ks[n]);
      var slots := Dedup(ks);
      assert forall i :: 0 <= i < |prev| ==> e[prev[i]] == ks[prev[i]];
      forall q, j | 0 <= q < |slots| && slots[q] < j < |ks|
        ensures ks[j] != ks[slots[q]]
      {
        assert q < |prev| && slots[q] == prev[q];
        if j < n {
          assert e[j] == ks[j];
        } else if p < |prev| {
          assert q != p;
          assert ks[prev[p]] == ks[j];
        }
      }
    }
  }

  lemma {:induction false} DedupOrder(ks: seq<string>)
    ensures FirstOccurrenceOrder(ks, Dedup(ks))
    decreases |ks|
  {
    if |ks| > 0 {
      var e := ks[..|ks| - 1];
      DedupOrder(e);
      DedupCovers(e);
      forall q, r | 0 <= q < r < |Dedup(ks)|
        ensures FirstIndex(ks, ks[Dedup(ks)[q]]) < FirstIndex(ks, ks[Dedup(ks)[r]])
      {
        PlaceOrder(ks, Dedup(e), q, r);
      }
    }
  }

  /** Once the last entry is placed, two slots stay in first-occurrence
      order: an old key's first occurrence is unchanged, and a new key's
      first occurrence is the last entry. */
  lemma {:induction false} PlaceOrder(ks: seq<string>, prev: seq<nat>, q: nat, r: nat)
    requires |ks| > 0
    requires forall i :: 0 <= i < |prev| ==> prev[i] < |ks| - 1
    requires FirstOccurrenceOrder(ks[..|ks| - 1], prev)
    requires CoversKeys(ks[..|ks| - 1], prev)
    requires q < r < |Place(ks, prev, |ks| - 1)|
    ensures FirstIndex(ks, ks[Place(ks, prev, |ks| - 1)[q]]) < FirstIndex(ks, ks[Place(ks, prev, |ks| - 1)[r]])
  {
    var n := |ks| - 1;
    var e := ks[..n];
    var t := ks[n];
    var p := SlotOf(ks, prev, t);
    var slots := Place(ks, prev, n);
    assert forall i :: 0 <= i < |prev| ==> e[prev[i]] == ks[prev[i]];
    var tq := ks[prev[q]];
    assert ks[slots[q]] == tq;
    assert FirstIndex(e, tq) <= prev[q] < n;
    FirstIndexPrefix(ks, n, tq);
    if r < |prev| {
      var tr := ks[prev[r]];
      assert ks[slots[r]] == tr;
      assert FirstIndex(e, tr) <= prev[r] < n;
      FirstIndexPrefix(ks, n, tr);
    } else {
      assert p == |prev| && ks[slots[r]] == t;
      SlotOfAgree(e, ks, prev, t);
      forall i | 0 <= i < n ensures e[i] != t {
        assert SlotOf(e, prev, e[i]) < |prev|;
      }
      FirstIndexAbsent(e, t);
      FirstIndexPrefix(ks, n, t);
    }
  }

  /** A key text already held at slot q: the next entry overwrites that slot. */
  lemma DedupOverwrite(ks: seq<string>, n: nat, q: nat)
    requires n < |ks| && q < |Dedup(ks[..n])| && ks[Dedup(ks[..n])[q]] == ks[n]
    ensures Dedup(ks[..n + 1]) == Dedup(ks[..n])[q := n]
  {
    var e, e' := ks[..n], ks[..n + 1];
    var prev := Dedup(e);
    assert e'[..|e'| - 1] == e;
    assert Dedup(e') == Place(e', prev, n);
    assert forall i :: 0 <= i < |prev| ==> e'[prev[i]] == e[prev[i]];
    DedupDistinct(e);
    SlotOfFound(e', prev, q, ks[n]);
    var p := SlotOf(e', prev, ks[n]);
    assert e[prev[p]] == e[prev[q]];
    assert p == q;
  }



  lemma {:induction false} SlotOfFound(ks: seq<string>, slots: seq<nat>, r: nat, t: string)
    requires SlotsInRange(ks, slots)
    requires r < |slots| && ks[slots[r]] == t
    ensures SlotOf(ks, slots, t) <= r
  {
  }

  lemma {:induction false} SlotOfAgree(a: seq<string>, b: seq<string>, slots: seq<nat>, t: string)
    requires forall i :: 0 <= i < |slots| ==> slots[i] < |a| && slots[i] < |b|
    requires forall i :: 0 <= i < |slots| ==> a[slots[i]] == b[slots[i]]
    ensures SlotOf(a, slots, t) == SlotOf(b, slots, t)
    decreases |slots|
  {
    if |slots| > 0 {
      SlotOfAgree(a, b, slots[1..], t);
    }
  }

  lemma {:induction false} FirstIndexPrefix(ks: seq<string>, n: nat, t: string)
    requires n <= |ks|
    ensures FirstIndex(ks[..n], t) < n ==> FirstIndex(ks, t) == FirstIndex(ks[..n], t)
    ensures FirstIndex(ks[..n], t) == n ==> FirstIndex(ks, t) >= n
    decreases n
  {
    if n > 0 && ks[0] != t {
      assert ks[..n][1..] == ks[1..][..n - 1];
      FirstIndexPrefix(ks[1..], n - 1, t);
    }
  }

  lemma FirstIndexAbsent(ks: seq<string>, t: string)
    requires forall i :: 0 <= i < |ks| ==> ks[i] != t
    ensures FirstIndex(ks, t) == |ks|
  {
  }

  // ---------------------------------------------------------------------
  // Complexity: 0 for primitives and empty containers, otherwise one more
  // than the most complex surviving child.

  function Complexity(v: Json): nat
    decreases v, 1
  {
    match v
    case List(xs) => if |xs| == 0 then 0 else 1 + MaxNat(ItemComplexities(v))
    case Dict(es) => if |es| == 0 then 0 else 1 + MaxNat(MemberComplexities(v))
    case _ => 0
  }

  /** The complexities of a list's items. */
  function ItemComplexities(v: Json): (r: seq<nat>)
    requires v.List?
    ensures |r| == |v.items| && forall i :: 0 <= i < |v.items| ==> r[i] == Complexity(v.items[i])
    decreases v, 0
  {
    seq(|v.items|, i requires 0 <= i < |v.items| => Complexity(v.items[i]))
  }

  /** The complexities of the values a dict keeps. */
  function MemberComplexities(v: Json): (r: seq<nat>)
    requires v.Dict?
    ensures |r| == |Dedup(KeyTexts(v.entries))|
    ensures forall i :: 0 <= i < |r| ==> r[i] == Complexity(v.entries[Dedup(KeyTexts(v.entries))[i]].1)
    decreases v, 0
  {
    var slots := Dedup(KeyTexts(v.entries));
    seq(|slots|, i requires 0 <= i < |slots| => Complexity(v.entries[slots[i]].1))
  }

  /** A non-empty container's complexity, unfolded once. */
  lemma ContainerComplexity(v: Json)
    requires (v.List? && v.items != []) || (v.Dict? && v.entries != [])
    ensures v.List? ==> Complexity(v) == 1 + MaxNat(ItemComplexities(v))
    ensures v.Dict? ==> Complexity(v) == 1 + MaxNat(MemberComplexities(v))
  {
  }

  function MaxNat(xs: seq<nat>): (m: nat)
    ensures forall i :: 0 <= i < |xs| ==> xs[i] <= m
    ensures xs != [] ==> exists i :: 0 <= i < |xs| && xs[i] == m
    ensures xs == [] ==> m == 0
    decreases |xs|
  {
    if xs == [] then 0
    else
      var m := MaxNat(xs[..|xs| - 1]);
      assert forall i :: 0 <= i < |xs| - 1 ==> xs[..|xs| - 1][i] == xs[i];
      if m >= xs[|xs| - 1] then m else xs[|xs| - 1]
  }

  // ---------------------------------------------------------------------
  // Warnings, in the order format_dict emits them: a value's own warnings
  // come first (it is formatted first), then the key conversion, then the
  // duplicate.

  function Warnings(v: Json): seq<Warning>
    decreases v, 1, 0
  {
    match v
    case List(xs) => ListWarnings(v, |xs|)
    case Dict(es) => DictWarnings(v, |es|)
    case _ => []
  }

  function ListWarnings(v: Json, n: nat): seq<Warning>
    requires v.List? && n <= |v.items|
    decreases v, 0, n
  {
    if n == 0 then [] else ListWarnings(v, n - 1) + Warnings(v.items[n - 1])
  }

  /** True when some entry before index n has key text t. */
  predicate SeenBefore(es: seq<(Key, Json)>, n: nat, t: string)
    requires n <= |es|
  {
    exists i :: 0 <= i < n && es[i].0.text == t
  }

  function KeyWarnings(es: seq<(Key, Json)>, n: nat): seq<Warning>
    requires n < |es|
  {
    var k := es[n].0;
    (if k.OtherKey? then [ConvertedKey(k.text)] else []) +
    (if SeenBefore(es, n, k.text) then [DuplicateKey(k.text)] else [])
  }

  function DictWarnings(v: Json, n: nat): seq<Warning>
    requires v.Dict? && n <= |v.entries|
    decreases v, 0, n
  {
    if n == 0 then []
    else DictWarnings(v, n - 1) + Warnings(v.entries[n - 1].1) + KeyWarnings(v.entries, n - 1)
  }
}
