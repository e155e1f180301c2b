/// asyncIterable.ts: `map`, `filter` and `toArray` over async iterables. An iterable is
/// modelled by the iterator it hands out, a cursor over a finite sequence of items; the
/// promises of the callbacks are modelled by the values they settle to.
module AsyncIterable {

  /** What `iterator.next()` settles to: `{ done: true }` or `{ done: false, value }`. */
  datatype Step<A> = Done | Yield(value: A)

  /** The iterator behind an async iterable: the items it yields, and how many it has yielded. */
  class Cursor<A> {
    const items: seq<A>
    var pos: nat

    predicate Valid()
      reads this
    {
      pos <= |items|
    }

    /** The items still to come. */
    function Remaining(): seq<A>
      reads this
      requires Valid()
    {
      items[pos..]
    }

    constructor (items: seq<A>)
      ensures Valid() && this.items == items && pos == 0
    {
      this.items := items;
      pos := 0;
    }

    /** `iterator.next()`: the next item, or `done` once all were yielded. */
    method Next() returns (r: Step<A>)
      requires Valid()
      modifies this
      ensures Valid()
      ensures old(pos) == |items| ==> r == Done && pos == old(pos)
      ensures old(pos) < |items| ==> r == Yield(items[old(pos)]) && pos == old(pos) + 1
    {
      if pos == |items| {
        return Done;
      }
      r := Yield(items[pos]);
      pos := pos + 1;
    }
  }

  /** What `map` yields from the items `xs`: `f` of each, in order. */
  function Map<A, B>(xs: seq<A>, f: A -> B): (r: seq<B>)
    ensures |r| == |xs| && forall i :: 0 <= i < |xs| ==> r[i] == f(xs[i])
  {
    if xs == [] then [] else [f(xs[0])] + Map(xs[1..], f)
  }

  /** The iterable `map(iterable, f)` returns: it took the source's iterator when it was made. */
  class Mapped<A, B> {
    const source: Cursor<A>
    const f: A -> B

    constructor (source: Cursor<A>, f: A -> B)
      ensures this.source == source && this.f == f
    {
      this.source := source;
      this.f := f;
    }

    /** `next()`: a finished source's result passed on as it is, otherwise `f` of the item. */
    method Next() returns (r: Step<B>)
      requires source.Valid()
      modifies source
      ensures source.Valid()
      ensures old(source.Remaining()) == [] ==> r == Done && source.pos == old(source.pos)
      ensures old(source.Remaining()) != [] ==>
        r == Yield(f(old(source.Remaining())[0])) && source.Remaining() == old(source.Remaining())[1..]
    {
      var next := source.Next();
      match next
      case Done => r := Done;
      case Yield(x) => r := Yield(f(x));
    }
  }

  function Identity<A>(x: A): A {
    x
  }

  /** `toArray(iterable, f)`: every item the mapped iterable yields, pushed in order. */
  method ToArray<A, B>(iterable: Cursor<A>, f: A -> B) returns (result: seq<B>)
    requires iterable.Valid()
    modifies iterable
    ensures iterable.Valid() && iterable.Remaining() == []
    ensures result == Map(old(iterable.Remaining()), f)
  {
    var mapped := new Mapped(iterable, f);
    ghost var xs := iterable.Remaining();
    result := [];
    var done := false;
    while !done
      invariant iterable.Valid()
      invariant |xs| == |result| + |iterable.Remaining()|
      invariant xs == old(iterable.Remaining())
      invariant result == Map(xs[..|result|], f)
      invariant iterable.Remaining() == xs[|result|..]
      invariant done ==> iterable.Remaining() == []
      decreases |iterable.Remaining()| + (if done then 0 else 1)
    {
      var item := mapped.Next();
      match item
      case Done => done := true;
      case Yield(y) =>
        assert y == f(xs[|result|]);
        MapSnoc(xs, |result|, f);
        result := result + [y];
    }
    assert xs[..|result|] == xs;
  }

  lemma MapSnoc<A, B>(xs: seq<A>, n: nat, f: A -> B)
    requires n < |xs|
    ensures Map(xs[..n + 1], f) == Map(xs[..n], f) + [f(xs[n])]
  {
  }

  /** `toArray(iterable)` with the default `identity` hands back the items as they came. */
  lemma ToArrayIdentity<A>(xs: seq<A>)
    ensures Map(xs, Identity) == xs
  {
  }

  // ---------------------------------------------------------------------------
  // filter

  /** A value as JavaScript tests it: a boolean, or any other value that is truthy or not. */
  datatype Value = Bool(b: bool) | Other(truthy: bool)

  function Truthy(v: Value): bool {
    match v
    case Bool(b) => b
    case Other(t) => t
  }

  /** What the filter function returns: a value, or a promise that settles to one. */
  datatype Verdict = Sync(value: Value) | Async(settled: Value)

  /** `filterResult` keeps an item when its verdict is exactly `true`, or a promise that
    * settles to something truthy; any other value, truthy or not, drops the item. */
  predicate Keeps(v: Verdict) {
    match v
    case Sync(x) => x == Bool(true)
    case Async(x) => Truthy(x)
  }

  /** What `filter` yields from the items `xs`: the kept ones, in order. */
  function Filter<A>(xs: seq<A>, f: A -> Verdict): (r: seq<A>)
    ensures |r| <= |xs|
  {
    if xs == [] then [] else (if Keeps(f(xs[0])) then [xs[0]] else []) + Filter(xs[1..], f)
  }

  /** An item is yielded by `filter` exactly when the source has it and it is kept. */
  lemma {:induction false} FilterMembers<A>(xs: seq<A>, f: A -> Verdict, x: A)
    ensures x in Filter(xs, f) <==> x in xs && Keeps(f(x))
  {
    if xs != [] {
      FilterMembers(xs[1..], f, x);
      assert xs == [xs[0]] + xs[1..];
    }
  }

  /** The position of the first kept item of `xs` at or after `from`, or `|xs|` if none is. */
  function NextKept<A>(xs: seq<A>, from: nat, f: A -> Verdict): (k: nat)
    requires from <= |xs|
    ensures from <= k <= |xs|
    ensures k < |xs| ==> Keeps(f(xs[k]))
    ensures forall j :: from <= j < k ==> !Keeps(f(xs[j]))
    decreases |xs| - from
  {
    if from == |xs| || Keeps(f(xs[from])) then from else NextKept(xs, from + 1, f)
  }

  /** `filterResult`: reads the iterator until an item is kept, passing `done` on. */
  method FilterResult<A>(it: Cursor<A>, f: A -> Verdict) returns (r: Step<A>)
    requires it.Valid()
    modifies it
    decreases |it.items| - it.pos
    ensures it.Valid()
    ensures var k := NextKept(it.items, old(it.pos), f);
      && (k < |it.items| ==> r == Yield(it.items[k]) && it.pos == k + 1)
      && (k == |it.items| ==> r == Done && it.pos == k)
  {
    var next := it.Next();
    match next
    case Done =>
      r := Done;
    case Yield(x) =>
      if Keeps(f(x)) {
        r := Yield(x);
      } else {
        r := FilterResult(it, f);
      }
  }

  /** The iterable `filter(iterable, f)` returns. */
  class Filtered<A> {
    const source: Cursor<A>
    const f: A -> Verdict

    constructor (source: Cursor<A>, f: A -> Verdict)
      ensures this.source == source && this.f == f
    {
      this.source := source;
      this.f := f;
    }

    /** `next()`: the next kept item; the remaining ones still to be filtered are what
      * follows it in the source. */
    method Next() returns (r: Step<A>)
      requires source.Valid()
      modifies source
      ensures source.Valid()
      ensures r.Done? ==> Filter(old(source.Remaining()), f) == [] && source.Remaining() == []
      ensures r.Yield? ==> Filter(old(source.Remaining()), f) == [r.value] + Filter(source.Remaining(), f)
    {
      ghost var from := source.pos;
      r := FilterResult(source, f);
      FilterFrom(source.items, from, f);
    }
  }

  /** Filtering from `from` on is the next kept item followed by the filtering after it. */
  lemma {:induction false} FilterFrom<A>(xs: seq<A>, from: nat, f: A -> Verdict)
    requires from <= |xs|
    ensures var k := NextKept(xs, from, f);
      && (k == |xs| ==> Filter(xs[from..], f) == [])
      && (k < |xs| ==> Filter(xs[from..], f) == [xs[k]] + Filter(xs[k + 1..], f))
    decreases |xs| - from
  {
    if from == |xs| {
      assert xs[from..] == [];
    } else {
      FilterUnfold(xs, from, f);
      if Keeps(f(xs[from])) {
        assert NextKept(xs, from, f) == from;
      } else {
        assert NextKept(xs, from, f) == NextKept(xs, from + 1, f);
        assert Filter(xs[from..], f) == Filter(xs[from + 1..], f);
        FilterFrom(xs, from + 1, f);
      }
    }
  }

  lemma FilterUnfold<A>(xs: seq<A>, from: nat, f: A -> Verdict)
    requires from < |xs|
    ensures Filter(xs[from..], f) == (if Keeps(f(xs[from])) then [xs[from]] else []) + Filter(xs[from + 1..], f)
  {
    assert xs[from..][1..] == xs[from + 1..];
  }

  /** A truthy value that is not `true`, returned without a promise, drops the item; the
    * same value from a promise keeps it. */
  lemma SyncTruthyIsRejected<A>(x: A, f: A -> Verdict)
    requires f(x) == Sync(Other(true))
    ensures Filter([x], f) == [] && Filter([x], y => Async(Other(true))) == [x]
  {
  }
}
