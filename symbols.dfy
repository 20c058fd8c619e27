/** States and signals of a Mealy machine (models/automat.hpp, models/automat.cpp).

    The source has two classes, `State` and `Signal`, with the same shape: a label
    `id` and a list of source symbols.  A leaf is built from a label (default
    "null"); a pair is built from two symbols and remembers both as its sources.
    Equality is deep and structural, while the ordering used by `std::set` and
    `std::map` compares labels only; the two are deliberately inconsistent. */
module Symbols {

  /** A state or signal: a label and the symbols it was composed from. */
  datatype Symbol = Symbol(id: string, sources: seq<Symbol>)

  type State = Symbol
  type Signal = Symbol

  /** The argument and the result of a transition function: (state, signal). */
  type ControlPair = (State, Signal)

  /** Label of a default-constructed state or signal. */
  const NullId: string := "null"

  /** A default-constructed `State()` or `Signal()`. */
  const Null: Symbol := Symbol(NullId, [])

  /** A symbol built from a label alone, with no sources. */
  function Leaf(id: string): Symbol {
    Symbol(id, [])
  }

  /** The default symbol is the leaf labelled "null", and differs from every pair. */
  lemma NullIsLeaf(a: Symbol, b: Symbol)
    ensures Null == Leaf("null") && Null.id == "null" && Null.sources == []
    ensures Null != Pair(a, b)
  {
    assert |Pair(a, b).sources| == 2;
  }

  /** The pair constructor `State(s1, s2)` / `Signal(s1, s2)`. */
  function Pair(a: Symbol, b: Symbol): Symbol {
    Symbol(a.id + "_" + b.id, [a, b])
  }

  /** A pair joins the labels with '_', keeps both operands as its sources, and so
      determines them: two pairs are equal exactly when their operands are. */
  lemma PairDecomposes(a: Symbol, b: Symbol, c: Symbol, d: Symbol)
    ensures Pair(a, b).id == a.id + "_" + b.id
    ensures Pair(a, b).sources == [a, b]
    ensures Pair(a, b) == Pair(c, d) <==> a == c && b == d
    ensures Pair(a, b) != Leaf(Pair(a, b).id)
  {
    if Pair(a, b) == Pair(c, d) {
      assert Pair(a, b).sources[0] == Pair(c, d).sources[0];
      assert Pair(a, b).sources[1] == Pair(c, d).sources[1];
    }
  }

  // ---------------------------------------------------------------------------
  // Equality (operator== and operator!=)

  /** `operator==`: labels equal, source lists of equal length, and sources
      pairwise equal, compared recursively.  This is exactly structural equality. */
  method Equals(a: Symbol, b: Symbol) returns (eq: bool)
    ensures eq <==> a == b
    decreases a
  {
    if a.id != b.id {
      return false;
    }
    if |a.sources| != |b.sources| {
      return false;
    }
    var i := 0;
    while i < |a.sources|
      invariant 0 <= i <= |a.sources|
      invariant a.sources[..i] == b.sources[..i]
    {
      assert a.sources[i] in a.sources;
      var same := Equals(a.sources[i], b.sources[i]);
      if !same {
        assert a.sources[i] != b.sources[i];
        return false;
      }
      assert a.sources[..i + 1] == a.sources[..i] + [a.sources[i]];
      assert b.sources[..i + 1] == b.sources[..i] + [b.sources[i]];
      i := i + 1;
    }
    assert a.sources == a.sources[..i];
    assert b.sources == b.sources[..i];
    return true;
  }

  /** `operator!=`: the negation of `operator==`. */
  method NotEquals(a: Symbol, b: Symbol) returns (ne: bool)
    ensures ne <==> a != b
  {
    var eq := Equals(a, b);
    ne := !eq;
  }

  // ---------------------------------------------------------------------------
  // Ordering (operator<), which looks at labels only

  /** Lexicographic order on strings, as `std::string::operator<`. */
  predicate LexLess(a: string, b: string)
    decreases |a|
  {
    |b| > 0 && (|a| == 0 || a[0] < b[0] || (a[0] == b[0] && LexLess(a[1..], b[1..])))
  }

  lemma {:induction false} LexLessIrreflexive(a: string)
    ensures !LexLess(a, a)
    decreases |a|
  {
    if |a| > 0 {
      LexLessIrreflexive(a[1..]);
    }
  }

  lemma {:induction false} LexLessTransitive(a: string, b: string, c: string)
    requires LexLess(a, b) && LexLess(b, c)
    ensures LexLess(a, c)
    decreases |a|
  {
    if |a| > 0 && a[0] == b[0] && b[0] == c[0] {
      LexLessTransitive(a[1..], b[1..], c[1..]);
    }
  }

  lemma {:induction false} LexLessTrichotomous(a: string, b: string)
    ensures LexLess(a, b) || a == b || LexLess(b, a)
    decreases |a|
  {
    if |a| > 0 && |b| > 0 && a[0] == b[0] {
      LexLessTrichotomous(a[1..], b[1..]);
      if a[1..] == b[1..] {
        assert a == [a[0]] + a[1..] && b == [b[0]] + b[1..];
      }
    }
  }

  /** `operator<` on states and on signals: compares labels only. */
  predicate Less(a: Symbol, b: Symbol) {
    LexLess(a.id, b.id)
  }

  /** Two symbols are equivalent under the ordering (neither is less than the
      other) exactly when their labels are equal, whatever their sources are.
      This is the identity `std::set` and `std::map` use for their keys. */
  lemma {:induction false} EquivalentIffSameLabel(a: Symbol, b: Symbol)
    ensures !Less(a, b) && !Less(b, a) <==> a.id == b.id
  {
    LexLessTrichotomous(a.id, b.id);
    if a.id == b.id {
      LexLessIrreflexive(a.id);
    }
  }

  /** The ordering is irreflexive and transitive: a strict weak order. */
  lemma LessIsStrictOrder(a: Symbol, b: Symbol, c: Symbol)
    ensures !Less(a, a)
    ensures Less(a, b) && Less(b, c) ==> Less(a, c)
  {
    LexLessIrreflexive(a.id);
    if Less(a, b) && Less(b, c) {
      LexLessTransitive(a.id, b.id, c.id);
    }
  }

  /** A leaf and a pair with the same label: unequal, yet neither is less than
      the other, so the ordering cannot tell them apart. */
  lemma LeafAndPairIndistinguishableByOrder(a: Symbol, b: Symbol)
    ensures Leaf(Pair(a, b).id) != Pair(a, b)
    ensures !Less(Leaf(Pair(a, b).id), Pair(a, b)) && !Less(Pair(a, b), Leaf(Pair(a, b).id))
  {
    EquivalentIffSameLabel(Leaf(Pair(a, b).id), Pair(a, b));
  }

  /** The key by which `ControlPair` values are compared: the state's label
      followed by the signal's label. */
  function PairKey(cp: ControlPair): string {
    cp.0.id + cp.1.id
  }

  /** `operator<` on `ControlPair`: compares the concatenated labels. */
  predicate ControlPairLess(p: ControlPair, q: ControlPair) {
    LexLess(PairKey(p), PairKey(q))
  }

  /** Control pairs are equivalent under their ordering exactly when their
      concatenated labels agree, so a `std::map` keyed by control pairs is a map
      keyed by `PairKey`; different pairs can share a key. */
  lemma {:induction false} ControlPairEquivalentIffSameKey(p: ControlPair, q: ControlPair)
    ensures !ControlPairLess(p, q) && !ControlPairLess(q, p) <==> PairKey(p) == PairKey(q)
    ensures PairKey((Leaf("ab"), Leaf("c"))) == PairKey((Leaf("a"), Leaf("bc")))
  {
    LexLessTrichotomous(PairKey(p), PairKey(q));
    if PairKey(p) == PairKey(q) {
      LexLessIrreflexive(PairKey(p));
    }
    assert "ab" + "c" == "a" + "bc";
  }

  // ---------------------------------------------------------------------------
  // Stability

  /** `is_stable`: true when there are fewer than two sources, and otherwise the
      result of comparing each source with the one before it (`std::equal` over
      the list shifted by one).  The contract states what this amounts to: every
      source equals the first. */
  function IsStable(s: Signal): (stable: bool)
    ensures stable <==> forall i :: 0 <= i < |s.sources| ==> s.sources[i] == s.sources[0]
  {
    if |s.sources| < 2 then
      true
    else
      var adjacent := forall i :: 1 <= i < |s.sources| ==> s.sources[i] == s.sources[i - 1];
      AdjacentEqualMeansAllEqual(s.sources);
      adjacent
  }

  lemma AdjacentEqualMeansAllEqual(xs: seq<Symbol>)
    ensures (forall i :: 1 <= i < |xs| ==> xs[i] == xs[i - 1]) <==>
            (forall i :: 0 <= i < |xs| ==> xs[i] == xs[0])
  {
    if forall i :: 1 <= i < |xs| ==> xs[i] == xs[i - 1] {
      forall k | 0 <= k < |xs|
        ensures xs[k] == xs[0]
      {
        EqualsFirstByChain(xs, k);
      }
    }
  }

  lemma {:induction false} EqualsFirstByChain(xs: seq<Symbol>, k: nat)
    requires forall i :: 1 <= i < |xs| ==> xs[i] == xs[i - 1]
    requires k < |xs|
    ensures xs[k] == xs[0]
    decreases k
  {
    if k > 0 {
      EqualsFirstByChain(xs, k - 1);
    }
  }

  /** A pair is stable exactly when its two sources are equal; any leaf is stable. */
  lemma PairStableIffEqual(a: Signal, b: Signal)
    ensures IsStable(Pair(a, b)) <==> a == b
    ensures IsStable(Leaf(a.id))
  {
    assert Pair(a, b).sources[1] == b;
  }

  // ---------------------------------------------------------------------------
  // Sets of symbols, ordered by label as `std::set<State>` / `std::set<Signal>`

  /** Labels are unique in `s`: what every `std::set` of symbols satisfies. */
  predicate LabelKeyed(s: set<Symbol>) {
    forall a, b :: a in s && b in s && a.id == b.id ==> a == b
  }

  /** `std::set::contains`: some element has the same label as `x`. */
  predicate SetContains(s: set<Symbol>, x: Symbol) {
    exists y :: y in s && y.id == x.id
  }

  /** `std::set::insert`: adds `x` unless an element with its label is present. */
  function SetInsert(s: set<Symbol>, x: Symbol): (r: set<Symbol>)
    ensures s <= r <= s + {x}
    ensures SetContains(r, x)
    ensures LabelKeyed(s) ==> LabelKeyed(r)
  {
    if SetContains(s, x) then s else s + {x}
  }

  /** Inside a set whose labels are unique, lookup and insertion by label are
      ordinary set membership and union. */
  lemma LabelOpsAreSetOps(s: set<Symbol>, universe: set<Symbol>, x: Symbol)
    requires LabelKeyed(universe) && s <= universe && x in universe
    ensures SetContains(s, x) <==> x in s
    ensures SetInsert(s, x) == s + {x}
  {
  }

  /** All pairs of an element of `a` with an element of `b`. */
  function PairSet(a: set<Symbol>, b: set<Symbol>): set<Symbol> {
    set s1, s2 | s1 in a && s2 in b :: Pair(s1, s2)
  }

  /** No label in `s` contains the separator '_'. */
  predicate SeparatorFree(s: set<Symbol>) {
    forall x :: x in s ==> '_' !in x.id
  }

  /** Joining with '_' is unambiguous when the left labels have no '_'. */
  lemma SplitAtSeparator(u: string, v: string, u': string, v': string)
    requires '_' !in u && '_' !in u'
    requires u + "_" + v == u' + "_" + v'
    ensures u == u' && v == v'
  {
    var w := u + "_" + v;
    SeparatorPosition(u, v);
    SeparatorPosition(u', v');
    assert u == w[..|u|] && u' == w[..|u'|];
    assert v == w[|u| + 1..] && v' == w[|u'| + 1..];
  }

  /** Position of the first '_' in `s` (its length when there is none). */
  function FirstSeparator(s: string): nat {
    if |s| == 0 || s[0] == '_' then 0 else 1 + FirstSeparator(s[1..])
  }

  lemma {:induction false} SeparatorPosition(u: string, v: string)
    requires '_' !in u
    ensures FirstSeparator(u + "_" + v) == |u|
  {
    if |u| > 0 {
      assert u[0] in u;
      assert (u + "_" + v)[1..] == u[1..] + "_" + v;
      SeparatorPosition(u[1..], v);
    }
  }

  /** Pairs of symbols drawn from label-keyed, separator-free sets have unique
      labels, so a `std::set` of them loses none. */
  lemma PairSetLabelKeyed(a: set<Symbol>, b: set<Symbol>)
    requires LabelKeyed(a) && LabelKeyed(b) && SeparatorFree(a) && SeparatorFree(b)
    ensures LabelKeyed(PairSet(a, b))
  {
    forall p, q | p in PairSet(a, b) && q in PairSet(a, b) && p.id == q.id
      ensures p == q
    {
      var p1, p2 :| p1 in a && p2 in b && p == Pair(p1, p2);
      var q1, q2 :| q1 in a && q2 in b && q == Pair(q1, q2);
      SplitAtSeparator(p1.id, p2.id, q1.id, q2.id);
    }
  }
}
