/**
 `python/sixtracklib/mad_helper.py`: turning a MAD sequence of thin elements at positions into
 elements with drifts between them. Lengths and positions are reals.
 */
module Generator {
  import opened Common

  /** A MAD element; an optional attribute is absent when the Python object lacks it. */
  datatype MadElement = MadElement(
    className: string,
    baseType: string,
    length: real,
    knl: Option<seq<real>>,
    ksl: Option<seq<real>>,
    lrad: Option<real>,
    kick: Option<real>,
    volt: Option<real>,
    freq: Option<real>,
    lag: Option<real>)

  /** What `dispatch` builds, or the element itself when its type is not handled. */
  datatype Element =
    | Drift(length: real)
    | Multipole(knl: seq<real>, ksl: seq<real>, hxl: real, hyl: real, length: real)
    | Cavity(voltage: real, frequency: real, lag: real)
    | Other(mad: MadElement)

  datatype Error = ThickElement | IndexError | AttributeError(name: string)
  datatype Result<T> = Ok(value: T) | Err(error: Error)

  const INSTRUMENTS := {"marker", "hmonitor", "vmonitor", "instrument", "monitor", "rcollimator"}

  function Dispatch(el: MadElement): Result<Element> {
    if el.baseType == "multipole" then
      var knl := if el.knl.Some? then el.knl.value else [0.0];
      var ksl := if el.ksl.Some? then el.ksl.value else [0.0];
      if knl == [] then Err(IndexError)
      else if el.lrad.None? then Err(AttributeError("lrad"))
      else Ok(Multipole(knl, ksl, knl[0], 0.0, el.lrad.value))
    else if el.baseType in INSTRUMENTS then Ok(Drift(0.0))
    else if el.baseType == "hkicker" then
      if el.kick.None? then Err(AttributeError("kick"))
      else if el.lrad.None? then Err(AttributeError("lrad"))
      else Ok(Multipole([-el.kick.value], [], 0.0, 0.0, el.lrad.value))
    else if el.baseType == "vkicker" then
      if el.kick.None? then Err(AttributeError("kick"))
      else if el.lrad.None? then Err(AttributeError("lrad"))
      else Ok(Multipole([], [el.kick.value], 0.0, 0.0, el.lrad.value))
    else if el.baseType == "rfcavity" then
      if el.volt.None? then Err(AttributeError("volt"))
      else if el.freq.None? then Err(AttributeError("freq"))
      else if el.lag.None? then Err(AttributeError("lag"))
      else Ok(Cavity(el.volt.value * 1000000.0, el.freq.value * 1000000.0, el.lag.value * 360.0))
    else Ok(Other(el))
  }

  function ClassName(e: Element): string {
    match e
    case Drift(_) => "Drift"
    case Multipole(_, _, _, _, _) => "Multipole"
    case Cavity(_, _, _) => "Cavity"
    case Other(mad) => mad.className
  }

  /** One element of the sequence with its name and position. */
  datatype Entry = Entry(name: string, pos: real, el: MadElement)

  /** One yielded tuple. */
  datatype Item = Item(name: string, class_: string, element: Element)

  /** What a consumer of the generator sees: the items, then possibly an exception. */
  datatype Output = Output(items: seq<Item>, error: Option<Error>)

  function Gap(oldpos: real, pos: real): seq<Item> {
    if pos - oldpos > 0.0 then [Item("drift", "Drift", Drift(pos - oldpos))] else []
  }

  function ItemOf(name: string, e: Element): Item {
    Item(name, ClassName(e), e)
  }

  function Generate(es: seq<Entry>, oldpos: real): Output {
    if es == [] then Output([], None)
    else if es[0].el.length > 0.0 then Output([], Some(ThickElement))
    else
      match Dispatch(es[0].el)
      case Err(e) => Output(Gap(oldpos, es[0].pos), Some(e))
      case Ok(e) =>
        var rest := Generate(es[1..], es[0].pos);
        Output(Gap(oldpos, es[0].pos) + [ItemOf(es[0].name, e)] + rest.items, rest.error)
  }

  // The generator's output from element `i` on, in terms of that from the next one.
  lemma GenerateFrom(es: seq<Entry>, i: nat, oldpos: real)
    requires i < |es|
    ensures var en, out := es[i], Generate(es[i..], oldpos);
            if en.el.length > 0.0 then out == Output([], Some(ThickElement))
            else if Dispatch(en.el).Err? then out == Output(Gap(oldpos, en.pos), Some(Dispatch(en.el).error))
            else
              var rest := Generate(es[i + 1..], en.pos);
              out == Output(Gap(oldpos, en.pos) + [ItemOf(en.name, Dispatch(en.el).value)] + rest.items, rest.error)
  {
    assert es[i..][0] == es[i] && es[i..][1..] == es[i + 1..];
  }

  function Min(a: nat, b: nat): nat { if a < b then a else b }

  /** Python's `zip`: as long as the shortest argument. */
  function Zip(names: seq<string>, positions: seq<real>, elements: seq<MadElement>): (r: seq<Entry>)
    ensures |r| == Min(Min(|names|, |positions|), |elements|)
    ensures forall i :: 0 <= i < |r| ==> r[i] == Entry(names[i], positions[i], elements[i])
  {
    seq(Min(Min(|names|, |positions|), |elements|),
        i requires 0 <= i < Min(Min(|names|, |positions|), |elements|) => Entry(names[i], positions[i], elements[i]))
  }

  predicate Accepted(en: Entry) {
    en.el.length <= 0.0 && Dispatch(en.el).Ok?
  }

  // The generator's whole output, when `items` has been yielded and `out` is still to come.
  predicate Continues(all: Output, items: seq<Item>, out: Output) {
    all == Output(items + out.items, out.error)
  }

  lemma ContinuesNext(all: Output, items: seq<Item>, es: seq<Entry>, i: nat, oldpos: real)
    requires i < |es| && Continues(all, items, Generate(es[i..], oldpos)) && Accepted(es[i])
    ensures Continues(all, items + Gap(oldpos, es[i].pos) + [ItemOf(es[i].name, Dispatch(es[i].el).value)],
                      Generate(es[i + 1..], es[i].pos))
  {
    GenerateFrom(es, i, oldpos);
  }

  lemma ContinuesLast(all: Output, items: seq<Item>, es: seq<Entry>, i: nat, oldpos: real)
    requires i < |es| && Continues(all, items, Generate(es[i..], oldpos)) && !Accepted(es[i])
    ensures if es[i].el.length > 0.0 then all == Output(items, Some(ThickElement))
            else all == Output(items + Gap(oldpos, es[i].pos), Some(Dispatch(es[i].el).error))
  {
    GenerateFrom(es, i, oldpos);
  }

  // ------------------------------------------------------ reading the output

  /** An inserted drift is told from everything else by its length alone. */
  predicate Inserted(item: Item) {
    item.element.Drift? && item.element.length > 0.0
  }

  /** The output without the inserted drifts. */
  function Strip(items: seq<Item>): seq<Item> {
    if items == [] then []
    else (if Inserted(items[0]) then [] else [items[0]]) + Strip(items[1..])
  }

  /** The total length of the inserted drifts in front of the `k`-th other item. */
  function DriftBefore(items: seq<Item>, k: nat): real {
    if items == [] then 0.0
    else if Inserted(items[0]) then items[0].element.length + DriftBefore(items[1..], k)
    else if k == 0 then 0.0
    else DriftBefore(items[1..], k - 1)
  }

  ghost predicate AllAccepted(es: seq<Entry>) {
    forall i :: 0 <= i < |es| ==> Accepted(es[i])
  }

  /** The positive increments of the positions from `oldpos` through element `k`. */
  function Rise(es: seq<Entry>, oldpos: real, k: nat): real
    requires k < |es|
  {
    var step := if es[0].pos > oldpos then es[0].pos - oldpos else 0.0;
    if k == 0 then step else step + Rise(es[1..], es[0].pos, k - 1)
  }

  ghost predicate NonDecreasing(es: seq<Entry>, oldpos: real, k: nat)
    requires k < |es|
  {
    oldpos <= es[0].pos && forall i :: 0 <= i < k ==> es[i].pos <= es[i + 1].pos
  }

  lemma DispatchIsNoInsertedDrift(el: MadElement, name: string)
    requires Dispatch(el).Ok?
    ensures !Inserted(ItemOf(name, Dispatch(el).value))
  {
  }

  // The two items an accepted entry adds.
  lemma GenerateUnfold(es: seq<Entry>, oldpos: real)
    requires es != [] && Accepted(es[0])
    ensures var item := ItemOf(es[0].name, Dispatch(es[0].el).value);
            var rest := Generate(es[1..], es[0].pos);
            && !Inserted(item)
            && Generate(es, oldpos) == Output(Gap(oldpos, es[0].pos) + ([item] + rest.items), rest.error)
  {
    DispatchIsNoInsertedDrift(es[0].el, es[0].name);
  }

  lemma StripGap(gap: seq<Item>, item: Item, rest: seq<Item>, k: nat)
    requires !Inserted(item) && (gap == [] || (|gap| == 1 && Inserted(gap[0])))
    ensures Strip(gap + ([item] + rest)) == [item] + Strip(rest)
    ensures DriftBefore(gap + ([item] + rest), k) ==
              (if gap == [] then 0.0 else gap[0].element.length) + if k == 0 then 0.0 else DriftBefore(rest, k - 1)
  {
    assert ([item] + rest)[1..] == rest;
    if gap == [] {
      assert gap + ([item] + rest) == [item] + rest;
    } else {
      assert (gap + ([item] + rest))[1..] == [item] + rest;
    }
  }

  lemma DriftBeforeUnfold(es: seq<Entry>, oldpos: real, k: nat)
    requires es != [] && Accepted(es[0])
    ensures DriftBefore(Generate(es, oldpos).items, k) ==
              (if es[0].pos > oldpos then es[0].pos - oldpos else 0.0)
              + if k == 0 then 0.0 else DriftBefore(Generate(es[1..], es[0].pos).items, k - 1)
  {
    GenerateUnfold(es, oldpos);
    StripGap(Gap(oldpos, es[0].pos), ItemOf(es[0].name, Dispatch(es[0].el).value),
             Generate(es[1..], es[0].pos).items, k);
  }

  /** The drifts inserted before element `k` sum to the positive increments of the positions. */
  lemma {:induction false} DriftsAreRise(es: seq<Entry>, oldpos: real, k: nat)
    requires AllAccepted(es) && k < |es|
    ensures DriftBefore(Generate(es, oldpos).items, k) == Rise(es, oldpos, k)
  {
    DriftBeforeUnfold(es, oldpos, k);
    if k > 0 {
      DriftsAreRise(es[1..], es[0].pos, k - 1);
    }
  }

  lemma {:induction false} RiseBounds(es: seq<Entry>, oldpos: real, k: nat)
    requires k < |es|
    ensures oldpos + Rise(es, oldpos, k) >= es[k].pos
    ensures oldpos + Rise(es, oldpos, k) == es[k].pos <==> NonDecreasing(es, oldpos, k)
  {
    if k > 0 {
      RiseBounds(es[1..], es[0].pos, k - 1);
      assert NonDecreasing(es, oldpos, k) <==> oldpos <= es[0].pos && NonDecreasing(es[1..], es[0].pos, k - 1) by {
        if oldpos <= es[0].pos && NonDecreasing(es[1..], es[0].pos, k - 1) {
          forall i | 0 <= i < k ensures es[i].pos <= es[i + 1].pos {
            if i > 0 { assert es[1..][i - 1].pos <= es[1..][i].pos; }
          }
        }
        if NonDecreasing(es, oldpos, k) {
          assert es[0].pos <= es[1].pos;
          forall i | 0 <= i < k - 1 ensures es[1..][i].pos <= es[1..][i + 1].pos {
            assert es[i + 1].pos <= es[(i + 1) + 1].pos;
          }
        }
      }
    }
  }

  /** Positions survive: the drifts in front of element `k` never fall short of its position, and
      they hit it exactly when the positions do not decrease from 0 up to it. */
  lemma {:induction false} PositionsKept(es: seq<Entry>, k: nat)
    requires AllAccepted(es) && k < |es|
    ensures DriftBefore(Generate(es, 0.0).items, k) >= es[k].pos
    ensures DriftBefore(Generate(es, 0.0).items, k) == es[k].pos <==>
              0.0 <= es[0].pos && forall i :: 0 <= i < k ==> es[i].pos <= es[i + 1].pos
  {
    DriftsAreRise(es, 0.0, k);
    RiseBounds(es, 0.0, k);
  }

  /** Deleting the inserted drifts gives back the names and dispatched elements, in order. */
  lemma {:induction false} StripRecoversInput(es: seq<Entry>, oldpos: real)
    requires AllAccepted(es)
    ensures Generate(es, oldpos).error == None
    ensures var kept := Strip(Generate(es, oldpos).items);
            |kept| == |es| && forall i :: 0 <= i < |es| ==> kept[i] == ItemOf(es[i].name, Dispatch(es[i].el).value)
  {
    if es != [] {
      GenerateUnfold(es, oldpos);
      StripRecoversInput(es[1..], es[0].pos);
      var item := ItemOf(es[0].name, Dispatch(es[0].el).value);
      StripGap(Gap(oldpos, es[0].pos), item, Generate(es[1..], es[0].pos).items, 0);
    }
  }

  /** No two inserted drifts are adjacent, on accepted and on failing input alike, and only
      a dispatch error can leave one at the end. */
  lemma {:induction false} DriftsNeverAdjacent(es: seq<Entry>, oldpos: real, i: nat)
    requires i < |Generate(es, oldpos).items| && Inserted(Generate(es, oldpos).items[i])
    ensures var out := Generate(es, oldpos);
            if i + 1 < |out.items| then !Inserted(out.items[i + 1])
            else out.error.Some? && out.error != Some(ThickElement)
  {
    if Accepted(es[0]) {
      GenerateUnfold(es, oldpos);
      var gap := Gap(oldpos, es[0].pos);
      if i > |gap| {
        assert Generate(es, oldpos).items[i] == Generate(es[1..], es[0].pos).items[i - |gap| - 1];
        DriftsNeverAdjacent(es[1..], es[0].pos, i - |gap| - 1);
      }
    }
  }

  /** The generator fails exactly when some entry is not accepted. */
  lemma {:induction false} FailsIffRejected(es: seq<Entry>, oldpos: real)
    ensures Generate(es, oldpos).error == None <==> AllAccepted(es)
  {
    if es != [] && Accepted(es[0]) {
      FailsIffRejected(es[1..], es[0].pos);
      assert AllAccepted(es) <==> AllAccepted(es[1..]) by {
        if AllAccepted(es[1..]) {
          forall i | 0 <= i < |es| ensures Accepted(es[i]) {
            if i > 0 { assert Accepted(es[1..][i - 1]); }
          }
        }
      }
    }
  }

  /** At the first entry that is not accepted the output is that of the entries before it; if that
      entry's dispatch failed, the drift leading to it has already been yielded. */
  lemma {:induction false} ErrorKeepsPrefix(es: seq<Entry>, oldpos: real, k: nat)
    requires k < |es| && AllAccepted(es[..k]) && !Accepted(es[k])
    ensures var out, before := Generate(es, oldpos), Generate(es[..k], oldpos);
            if es[k].el.length > 0.0 then out == Output(before.items, Some(ThickElement))
            else out == Output(before.items + Gap(if k == 0 then oldpos else es[k - 1].pos, es[k].pos),
                               Some(Dispatch(es[k].el).error))
  {
    if k > 0 {
      assert es[..k][0] == es[0] && es[..k][1..] == es[1..][..k - 1];
      GenerateUnfold(es, oldpos);
      GenerateUnfold(es[..k], oldpos);
      var between := es[1..][..k - 1];
      assert AllAccepted(between) by {
        forall i | 0 <= i < |between| ensures Accepted(between[i]) {
          assert Accepted(es[..k][i + 1]);
        }
      }
      ErrorKeepsPrefix(es[1..], es[0].pos, k - 1);
    }
  }

  // ---------------------------------------- the attributes, from the output

  /** What came out of an element of each base type: its MAD attributes can be read back from it. */
  predicate ReadsBack(el: MadElement, item: Item) {
    var e := item.element;
    if el.baseType == "multipole" then
      && e.Multipole? && item.class_ == "Multipole"
      && (el.knl == Some(e.knl) || (el.knl == None && e.knl == [0.0]))
      && (el.ksl == Some(e.ksl) || (el.ksl == None && e.ksl == [0.0]))
      && e.knl != [] && e.hxl == e.knl[0] && e.hyl == 0.0 && el.lrad == Some(e.length)
    else if el.baseType in {"marker", "hmonitor", "vmonitor", "instrument", "monitor", "rcollimator"} then
      e.Drift? && e.length == 0.0 && item.class_ == "Drift"
    else if el.baseType == "hkicker" then
      && e.Multipole? && item.class_ == "Multipole"
      && |e.knl| == 1 && el.kick == Some(-e.knl[0]) && e.ksl == []
      && e.hxl == e.hyl == 0.0 && el.lrad == Some(e.length)
    else if el.baseType == "vkicker" then
      && e.Multipole? && item.class_ == "Multipole"
      && |e.ksl| == 1 && el.kick == Some(e.ksl[0]) && e.knl == []
      && e.hxl == e.hyl == 0.0 && el.lrad == Some(e.length)
    else if el.baseType == "rfcavity" then
      && e.Cavity? && item.class_ == "Cavity"
      && el.volt == Some(e.voltage / 1000000.0) && el.freq == Some(e.frequency / 1000000.0)
      && el.lag == Some(e.lag / 360.0)
    else
      e == Other(el) && item.class_ == el.className
  }

  /** The element has no such attribute. */
  predicate Lacks(el: MadElement, attribute: string) {
    || (attribute == "lrad" && el.lrad == None)
    || (attribute == "kick" && el.kick == None)
    || (attribute == "volt" && el.volt == None)
    || (attribute == "freq" && el.freq == None)
    || (attribute == "lag" && el.lag == None)
  }

  /** The attributes an element of a base type is asked for, in that order. */
  function Asked(baseType: string): seq<string> {
    if baseType == "multipole" then ["lrad"]
    else if baseType == "hkicker" || baseType == "vkicker" then ["kick", "lrad"]
    else if baseType == "rfcavity" then ["volt", "freq", "lag"]
    else []
  }

  /** Why an element raises: it is thick; or, being thin, it is a multipole with an empty list of
      strengths, or lacks an attribute its type is asked for and none asked for before. */
  predicate Raises(el: MadElement, error: Error) {
    match error
    case ThickElement => el.length > 0.0
    case IndexError => el.length <= 0.0 && el.baseType == "multipole" && el.knl == Some([])
    case AttributeError(name) =>
      && el.length <= 0.0 && !(el.baseType == "multipole" && el.knl == Some([]))
      && Lacks(el, name)
      && exists k :: 0 <= k < |Asked(el.baseType)| && FirstLack(el, k, name)
  }

  predicate FirstLack(el: MadElement, k: nat, name: string)
    requires k < |Asked(el.baseType)|
  {
    Asked(el.baseType)[k] == name && forall j :: 0 <= j < k ==> !Lacks(el, Asked(el.baseType)[j])
  }

  lemma RaisesOneError(el: MadElement, e: Error, f: Error)
    requires Raises(el, e) && Raises(el, f)
    ensures e == f
  {
    if e.AttributeError? && f.AttributeError? {
      var j :| 0 <= j < |Asked(el.baseType)| && FirstLack(el, j, e.name);
      var k :| 0 <= k < |Asked(el.baseType)| && FirstLack(el, k, f.name);
      assert j < k ==> Lacks(el, Asked(el.baseType)[j]);
    }
  }

  /** The items kept are those of the elements in order, with their names; they stop at the first
      element that raises, and only there. */
  ghost predicate Describes(es: seq<Entry>, kept: seq<Item>, error: Option<Error>) {
    && |kept| <= |es|
    && (forall i :: 0 <= i < |kept| ==> kept[i].name == es[i].name && ReadsBack(es[i].el, kept[i]))
    && (forall i, e :: 0 <= i < |kept| ==> !Raises(es[i].el, e))
    && if |kept| == |es| then error == None else error.Some? && Raises(es[|kept|].el, error.value)
  }

  predicate DriftsNamed(items: seq<Item>) {
    forall k :: 0 <= k < |items| && Inserted(items[k]) ==> items[k].name == "drift" && items[k].class_ == "Drift"
  }

  /** What the output is, in terms of the input alone; the items besides those kept are drifts. */
  ghost predicate Describing(es: seq<Entry>, out: Output) {
    Describes(es, Strip(out.items), out.error) && DriftsNamed(out.items)
  }

  lemma DispatchReadsBack(el: MadElement, name: string)
    requires el.length <= 0.0
    ensures Dispatch(el).Ok? ==> ReadsBack(el, ItemOf(name, Dispatch(el).value)) && forall e :: !Raises(el, e)
    ensures Dispatch(el).Err? ==> Raises(el, Dispatch(el).error)
  {
    if Dispatch(el).Err? && Dispatch(el).error.AttributeError? {
      var asked := Asked(el.baseType);
      var k := if asked[0] == Dispatch(el).error.name then 0 else if asked[1] == Dispatch(el).error.name then 1 else 2;
      assert FirstLack(el, k, Dispatch(el).error.name);
    }
    if Dispatch(el).Ok? {
      forall e ensures !Raises(el, e) {
        assert forall k :: 0 <= k < |Asked(el.baseType)| ==> !Lacks(el, Asked(el.baseType)[k]);
      }
    }
  }

  lemma DescribesCons(es: seq<Entry>, item: Item, kept: seq<Item>, error: Option<Error>)
    requires es != [] && Describes(es[1..], kept, error)
    requires item.name == es[0].name && ReadsBack(es[0].el, item) && forall e :: !Raises(es[0].el, e)
    ensures Describes(es, [item] + kept, error)
  {
    var all := [item] + kept;
    forall i | 0 <= i < |all|
      ensures all[i].name == es[i].name && ReadsBack(es[i].el, all[i]) && forall e :: !Raises(es[i].el, e)
    {
      if i > 0 { assert all[i] == kept[i - 1] && es[i] == es[1..][i - 1]; }
    }
    if |kept| < |es[1..]| { assert es[|all|] == es[1..][|kept|]; }
  }

  lemma RejectedDescribes(es: seq<Entry>, oldpos: real)
    requires es != [] && !Accepted(es[0])
    ensures var out := Generate(es, oldpos); Strip(out.items) == [] && Describes(es, [], out.error)
  {
    if es[0].el.length <= 0.0 {
      DispatchReadsBack(es[0].el, es[0].name);
    }
  }

  lemma {:induction false} GenerateNamesDrifts(es: seq<Entry>, oldpos: real)
    ensures DriftsNamed(Generate(es, oldpos).items)
  {
    if es != [] && Accepted(es[0]) {
      GenerateUnfold(es, oldpos);
      GenerateNamesDrifts(es[1..], es[0].pos);
    }
  }

  lemma {:induction false} GenerateKeeps(es: seq<Entry>, oldpos: real)
    ensures Describes(es, Strip(Generate(es, oldpos).items), Generate(es, oldpos).error)
  {
    if es != [] {
      if Accepted(es[0]) {
        var item, rest := ItemOf(es[0].name, Dispatch(es[0].el).value), Generate(es[1..], es[0].pos);
        DispatchReadsBack(es[0].el, es[0].name);
        GenerateUnfold(es, oldpos);
        GenerateKeeps(es[1..], es[0].pos);
        StripGap(Gap(oldpos, es[0].pos), item, rest.items, 0);
        DescribesCons(es, item, Strip(rest.items), rest.error);
      } else {
        RejectedDescribes(es, oldpos);
      }
    }
  }

  /** The output describes the input, accepted or failing. */
  lemma GenerateDescribes(es: seq<Entry>, oldpos: real)
    ensures Describing(es, Generate(es, oldpos))
  {
    GenerateKeeps(es, oldpos);
    GenerateNamesDrifts(es, oldpos);
  }

  // ------------------------------------------------------------- the loop

  /** The generator's loop, run to its end or to its exception. */
  method MadseqToGenerator(names: seq<string>, positions: seq<real>, elements: seq<MadElement>)
    returns (items: seq<Item>, error: Option<Error>)
    ensures Output(items, error) == Generate(Zip(names, positions, elements), 0.0)
    ensures Describing(Zip(names, positions, elements), Output(items, error))
  {
    items := [];
    var oldpos := 0.0;
    ghost var es := Zip(names, positions, elements);
    ghost var all := Generate(es, 0.0);
    var n := Min(Min(|names|, |positions|), |elements|);
    var i := 0;
    assert es[0..] == es;
    while i < n
      invariant 0 <= i <= n == |es|
      invariant Continues(all, items, Generate(es[i..], oldpos))
    {
      var el := elements[i];
      assert es[i] == Entry(names[i], positions[i], el);
      if el.length > 0.0 {
        ContinuesLast(all, items, es, i, oldpos);
        GenerateDescribes(es, 0.0);
        return items, Some(ThickElement);
      }
      ghost var before := items;
      var length := positions[i] - oldpos;
      if length > 0.0 {
        items := items + [Item("drift", "Drift", Drift(length))];
      }
      assert items == before + Gap(oldpos, positions[i]);
      match Dispatch(el) {
        case Err(e) =>
          ContinuesLast(all, before, es, i, oldpos);
          GenerateDescribes(es, 0.0);
          return items, Some(e);
        case Ok(e) =>
          ContinuesNext(all, before, es, i, oldpos);
          oldpos := positions[i];
          items := items + [ItemOf(names[i], e)];
      }
      i := i + 1;
    }
    error := None;
    GenerateDescribes(es, 0.0);
  }
}
