/**
 * Composable directory listing.
 *
 * The driver's listing generator is modelled by the finite sequence of
 * items it yields, and each chained stage by a function from the upstream
 * sequence to the downstream one. Items keep one type `T` throughout the
 * chain; the driver argument that the source passes to every stage and
 * callback is not part of this model.
 */
module Listing {

  /** Everything the source's `chain.reduce` does: stage `k` consumes the output of stage `k - 1`. */
  function RunChain<T>(chain: seq<seq<T> -> seq<T>>, source: seq<T>): seq<T>
    decreases |chain|
  {
    if |chain| == 0 then source else RunChain(chain[1..], chain[0](source))
  }

  /** Appending a stage feeds the previous pipeline's output to it. */
  lemma {:induction false} RunChainSnoc<T>(chain: seq<seq<T> -> seq<T>>, stage: seq<T> -> seq<T>, source: seq<T>)
    ensures RunChain(chain + [stage], source) == stage(RunChain(chain, source))
    decreases |chain|
  {
    if |chain| > 0 {
      assert (chain + [stage])[1..] == chain[1..] + [stage];
      RunChainSnoc(chain[1..], stage, chain[0](source));
    }
  }

  // ---------------------------------------------------------------------
  // The `filter` stage: keep the items whose predicate holds; the k-th
  // input item is passed index k.
  // ---------------------------------------------------------------------

  /** What the stage yields for item `x` seen at index `i`. */
  function Keep<T>(pred: (T, nat) -> bool, x: T, i: nat): seq<T> {
    if pred(x, i) then [x] else []
  }

  function FilterFrom<T>(pred: (T, nat) -> bool, s: seq<T>, i: nat): seq<T>
    requires i <= |s|
    decreases |s| - i
  {
    if i == |s| then [] else Keep(pred, s[i], i) + FilterFrom(pred, s, i + 1)
  }

  function Filtered<T>(pred: (T, nat) -> bool, s: seq<T>): seq<T> {
    FilterFrom(pred, s, 0)
  }

  function FilterStage<T>(pred: (T, nat) -> bool): seq<T> -> seq<T> {
    s => Filtered(pred, s)
  }

  lemma {:induction false} FilterFromSnoc<T>(pred: (T, nat) -> bool, s: seq<T>, x: T, i: nat)
    requires i <= |s|
    ensures FilterFrom(pred, s + [x], i) == FilterFrom(pred, s, i) + Keep(pred, x, |s|)
    decreases |s| - i
  {
    var t := s + [x];
    if i == |s| {
      assert FilterFrom(pred, t, i + 1) == [];
      assert FilterFrom(pred, t, i) == Keep(pred, x, |s|) + [];
    } else {
      assert t[i] == s[i];
      FilterFromSnoc(pred, s, x, i + 1);
      assert FilterFrom(pred, t, i) == Keep(pred, s[i], i) + FilterFrom(pred, t, i + 1);
      assert FilterFrom(pred, s, i) == Keep(pred, s[i], i) + FilterFrom(pred, s, i + 1);
    }
  }

  /**
   * Feeding one more item extends the output by that item exactly when
   * the predicate accepts it at its input position, whether or not
   * earlier items were kept.
   */
  lemma FilterSnoc<T>(pred: (T, nat) -> bool, s: seq<T>, x: T)
    ensures Filtered(pred, s + [x]) == Filtered(pred, s) + (if pred(x, |s|) then [x] else [])
    ensures |Filtered(pred, s + [x])| == |Filtered(pred, s)| + (if pred(x, |s|) then 1 else 0)
  {
    FilterFromSnoc(pred, s, x, 0);
  }

  lemma {:induction false} FilterFromMembers<T>(pred: (T, nat) -> bool, s: seq<T>, i: nat, x: T)
    requires i <= |s|
    ensures x in FilterFrom(pred, s, i) <==> exists k :: i <= k < |s| && s[k] == x && pred(s[k], k)
    decreases |s| - i
  {
    if i < |s| {
      FilterFromMembers(pred, s, i + 1, x);
      assert FilterFrom(pred, s, i) == Keep(pred, s[i], i) + FilterFrom(pred, s, i + 1);
      assert x in Keep(pred, s[i], i) <==> s[i] == x && pred(s[i], i);
    }
  }

  /** An item is in the output exactly when some input position holding it is accepted. */
  lemma FilterMembers<T>(pred: (T, nat) -> bool, s: seq<T>, x: T)
    ensures x in Filtered(pred, s) <==> exists k :: 0 <= k < |s| && s[k] == x && pred(s[k], k)
  {
    FilterFromMembers(pred, s, 0, x);
  }

  lemma {:induction false} FilterFromAll<T>(pred: (T, nat) -> bool, s: seq<T>, i: nat)
    requires i <= |s|
    ensures (forall k :: i <= k < |s| ==> pred(s[k], k)) ==> FilterFrom(pred, s, i) == s[i..]
    ensures (forall k :: i <= k < |s| ==> !pred(s[k], k)) ==> FilterFrom(pred, s, i) == []
    decreases |s| - i
  {
    if i < |s| {
      FilterFromAll(pred, s, i + 1);
      assert s[i..] == [s[i]] + s[i + 1..];
    }
  }

  /** An always-true predicate keeps everything; an always-false one keeps nothing. */
  lemma FilterExtremes<T>(pred: (T, nat) -> bool, s: seq<T>)
    ensures (forall k :: 0 <= k < |s| ==> pred(s[k], k)) ==> Filtered(pred, s) == s
    ensures (forall k :: 0 <= k < |s| ==> !pred(s[k], k)) ==> Filtered(pred, s) == []
  {
    FilterFromAll(pred, s, 0);
  }

  // ---------------------------------------------------------------------
  // The `map` stage: the k-th output is `mapper(item_k, k)`.
  // ---------------------------------------------------------------------

  function MapFrom<T>(mapper: (T, nat) -> T, s: seq<T>, i: nat): seq<T>
    requires i <= |s|
    decreases |s| - i
  {
    if i == |s| then [] else [mapper(s[i], i)] + MapFrom(mapper, s, i + 1)
  }

  function Mapped<T>(mapper: (T, nat) -> T, s: seq<T>): seq<T> {
    MapFrom(mapper, s, 0)
  }

  function MapStage<T>(mapper: (T, nat) -> T): seq<T> -> seq<T> {
    s => Mapped(mapper, s)
  }

  lemma {:induction false} MapFromAt<T>(mapper: (T, nat) -> T, s: seq<T>, i: nat)
    requires i <= |s|
    ensures |MapFrom(mapper, s, i)| == |s| - i
    ensures forall k :: i <= k < |s| ==> MapFrom(mapper, s, i)[k - i] == mapper(s[k], k)
    decreases |s| - i
  {
    if i < |s| {
      MapFromAt(mapper, s, i + 1);
    }
  }

  /** The output has the input's length and order, item k mapped with index k. */
  lemma MappedAt<T>(mapper: (T, nat) -> T, s: seq<T>)
    ensures |Mapped(mapper, s)| == |s|
    ensures forall k :: 0 <= k < |s| ==> Mapped(mapper, s)[k] == mapper(s[k], k)
  {
    MapFromAt(mapper, s, 0);
  }

  // ---------------------------------------------------------------------
  // The generator loops behind the two stages, with their running index.
  // ---------------------------------------------------------------------

  /** The `filter` generator: walk the source, bumping `index` for every item. */
  method FilterItems<T>(pred: (T, nat) -> bool, source: seq<T>) returns (out: seq<T>)
    ensures out == Filtered(pred, source)
  {
    out := [];
    var index: nat := 0;
    while index < |source|
      invariant index <= |source|
      invariant out + FilterFrom(pred, source, index) == Filtered(pred, source)
    {
      var item := source[index];
      if pred(item, index) {
        out := out + [item];
      }
      index := index + 1;
    }
  }

  /** The `map` generator: yield `mapper(item, index)` for every item. */
  method MapItems<T>(mapper: (T, nat) -> T, source: seq<T>) returns (out: seq<T>)
    ensures out == Mapped(mapper, source)
  {
    out := [];
    var index: nat := 0;
    while index < |source|
      invariant index <= |source|
      invariant out + MapFrom(mapper, source, index) == Mapped(mapper, source)
    {
      out := out + [mapper(source[index], index)];
      index := index + 1;
    }
  }

  /**
   * A listing: the root producer's items and the chain of stages added
   * by `filter`, `map` and `pipe`. Adding a stage changes this object's
   * own chain and hands back the same object.
   */
  class DirectoryListing<T> {
    const listing: seq<T>
    var chain: seq<seq<T> -> seq<T>>

    constructor (listing: seq<T>)
      ensures this.listing == listing && chain == []
      ensures ToIterable() == listing
    {
      this.listing := listing;
      chain := [];
    }

    /** `toIterable`: the chain folded left to right over the root producer's output. */
    function ToIterable(): seq<T>
      reads this
    {
      RunChain(chain, listing)
    }

    /** `pipe`: push `fn` onto this listing's chain and return this listing. */
    method Pipe(fn: seq<T> -> seq<T>) returns (r: DirectoryListing<T>)
      modifies this
      ensures r == this
      ensures chain == old(chain) + [fn]
      ensures ToIterable() == fn(old(ToIterable()))
    {
      chain := chain + [fn];
      RunChainSnoc(old(chain), fn, listing);
      r := this;
    }

    method Filter(pred: (T, nat) -> bool) returns (r: DirectoryListing<T>)
      modifies this
      ensures r == this
      ensures |chain| == |old(chain)| + 1 && chain[..|old(chain)|] == old(chain)
      ensures ToIterable() == Filtered(pred, old(ToIterable()))
    {
      r := Pipe(FilterStage(pred));
    }

    method Map(mapper: (T, nat) -> T) returns (r: DirectoryListing<T>)
      modifies this
      ensures r == this
      ensures |chain| == |old(chain)| + 1 && chain[..|old(chain)|] == old(chain)
      ensures ToIterable() == Mapped(mapper, old(ToIterable()))
    {
      r := Pipe(MapStage(mapper));
    }

    /** `toArray`: drain the pipeline in order. */
    method ToArray() returns (arr: seq<T>)
      ensures arr == ToIterable()
      ensures chain == [] ==> arr == listing
    {
      var items := ToIterable();
      arr := [];
      var i := 0;
      while i < |items|
        invariant 0 <= i <= |items|
        invariant arr == items[..i]
      {
        arr := arr + [items[i]];
        i := i + 1;
      }
    }

    /** The default async iterator delegates to `toIterable`. */
    function AsyncIterator(): (r: seq<T>)
      reads this
      ensures r == RunChain(chain, listing)
    {
      ToIterable()
    }
  }

  /** Two stages added one after the other: the second sees only what the first produced. */
  lemma TwoStagesCompose<T>(chain: seq<seq<T> -> seq<T>>, f: seq<T> -> seq<T>, g: seq<T> -> seq<T>, source: seq<T>)
    ensures RunChain(chain + [f] + [g], source) == g(f(RunChain(chain, source)))
  {
    RunChainSnoc(chain, f, source);
    RunChainSnoc(chain + [f], g, source);
  }
}
