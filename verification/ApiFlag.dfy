/**
  Whether the callers of a function can be bound by a new effect attribute, as its signature tells. The flag
  looks at the parameters as they are written, while the header that is compared is flattened: two spellings
  of one signature can differ in the flag, and exactly when they do is shown here.
 */
module ApiFlag {
  import opened Basics
  import opened ApiRenaming
  import ApiCompare

  // ----- the types that carry functions, and the types that callers choose -----

  const CLOSED: set<string> := {
    "i8", "i16", "i32", "i64", "i128", "i8u", "i16u", "i32u", "i64u", "i128u", "byte", "ubyte", "sbyte",
    "f16", "f32", "f64", "f128", "d32", "d64", "d128", "bool", "char", "utf8char", "string", "utf8string",
    "unit", "bigint", "BigInt", "Json", "Instant", "Duration"}

  const COLLECTIONS: set<string> := {
    "Array", "List", "Vec", "Maybe", "Result", "Map", "Set", "HashMap", "HashSet"}

  /** What follows the last dot. */
  function LastSegment(name: string): (r: string)
    ensures '.' !in r
    ensures name == r || (|r| < |name| && name[|name| - |r| - 1] == '.' && name[|name| - |r|..] == r)
  {
    if name == [] then []
    else
      var rest := LastSegment(name[1..]);
      if |rest| < |name| - 1 then rest
      else if name[0] == '.' then rest
      else name
  }

  predicate Collection<V>(head: Head<V>) {
    head.Constructor? && LastSegment(head.name) in COLLECTIONS
  }

  /** A function could be inside an argument of the type, as far as its form tells. */
  predicate MayCarry<V(==), R(==)>(t: Type<V, R>)
    decreases t
  {
    match t
    case Variable(_) => true
    case Length(_) => false
    case Named(name) => name !in CLOSED
    case Apply(head, arguments) => !Collection(head) || exists c | c in arguments :: MayCarry(c)
    case Regions(inner, _) => MayCarry(inner)
    case Wrapped(_, inner) => MayCarry(inner)
    case FixedArray(element, _) => MayCarry(element)
    case Tuple(elements) => exists c | c in elements :: MayCarry(c)
    case Dyn(_) => true
    case Quantified(_, _) => true
    case Function(_, _) => true
  }

  /** What a module declares about lengths: its constants, and which parameters of its types are lengths. */
  datatype Lengths = Lengths(constants: set<string>, positions: map<string, seq<bool>>) {

    /** Whether callers choose the length. */
    predicate Parameter<V, R>(length: Type<V, R>) {
      match length
      case Variable(_) => true
      case Named(name) => '.' !in name && ':' !in name && name !in constants
      case _ => false
    }

    predicate LengthAt<V>(head: Head<V>, index: nat) {
      head.Constructor? && head.name in positions && index < |positions[head.name]| && positions[head.name][index]
    }

    /** Somewhere in the type there is a variable, or a length that is one. */
    predicate Generic<V(==), R(==)>(t: Type<V, R>)
      decreases t
    {
      match t
      case Variable(_) => true
      case Named(_) => false
      case Length(_) => false
      case Dyn(_) => false
      case Apply(head, arguments) =>
        exists k | 0 <= k < |arguments| ::
          if LengthAt(head, k) then Parameter(arguments[k]) else Generic(arguments[k])
      case Regions(inner, _) => Generic(inner)
      case Quantified(_, inner) => Generic(inner)
      case Wrapped(_, inner) => Generic(inner)
      case FixedArray(element, count) => Generic(element) || Parameter(count)
      case Tuple(elements) => exists c | c in elements :: Generic(c)
      case Function(parameters, result) => (exists c | c in parameters :: Generic(c)) || Generic(result)
    }

    predicate GenericSignature<V(==), R(==)>(parameters: seq<Type<V, R>>, result: Type<V, R>) {
      (exists c | c in parameters :: Generic(c)) || Generic(result)
    }

    /** The flag of a function: the parameters are those that are written before the result. */
    predicate Callbacks<V(==), R(==)>(s: Signature<V, R>) {
      (exists c | c in s.parameters :: MayCarry(c)) || GenericSignature(s.parameters, s.result)
    }
  }

  // ----- changing names changes neither -----

  lemma {:induction false} CarryTo<V, W, R, S>(f: map<V, W>, g: map<R, S>, t: Type<V, R>)
    requires Within(f.Keys, g.Keys, t)
    ensures MayCarry(To(f, g, t)) == MayCarry(t)
    decreases t
  {
    forall c | c in Parts(t) ensures MayCarry(To(f, g, c)) == MayCarry(c) {
      CarryTo(f, g, c);
    }
    match t
    case Apply(_, arguments) => CarryAllTo(f, g, arguments);
    case Tuple(elements) => CarryAllTo(f, g, elements);
    case Regions(inner, _) => assert inner in Parts(t);
    case Wrapped(_, inner) => assert inner in Parts(t);
    case FixedArray(element, _) => assert element in Parts(t);
    case _ =>
  }

  lemma CarryAllTo<V, W, R, S>(f: map<V, W>, g: map<R, S>, ts: seq<Type<V, R>>)
    requires WithinAll(f.Keys, g.Keys, ts)
    requires forall c | c in ts :: MayCarry(To(f, g, c)) == MayCarry(c)
    ensures (exists c | c in AllTo(f, g, ts) :: MayCarry(c)) <==> exists c | c in ts :: MayCarry(c)
  {
    hide MayCarry;
    var ts' := AllTo(f, g, ts);
    if c :| c in ts && MayCarry(c) {
      var k :| 0 <= k < |ts| && ts[k] == c;
      assert ts'[k] in ts' && MayCarry(ts'[k]);
    }
    if c :| c in ts' && MayCarry(c) {
      var k :| 0 <= k < |ts| && ts'[k] == c;
      assert ts[k] in ts && MayCarry(ts[k]);
    }
  }

  lemma {:induction false} GenericTo<V, W, R, S>(lengths: Lengths, f: map<V, W>, g: map<R, S>, t: Type<V, R>)
    requires Within(f.Keys, g.Keys, t)
    ensures GenericAlike(lengths, f, g, t)
    decreases t, 1
  {
    match t
    case Regions(inner, _) => assert inner in Parts(t); GenericTo(lengths, f, g, inner);
    case Quantified(_, inner) => assert inner in Parts(t); GenericTo(lengths, f, g, inner);
    case Wrapped(_, inner) => assert inner in Parts(t); GenericTo(lengths, f, g, inner);
    case FixedArray(element, count) =>
      assert element in Parts(t) && count in Parts(t);
      GenericTo(lengths, f, g, element);
    case Apply(_, _) => GenericPartsTo(lengths, f, g, t);
    case Tuple(_) => GenericPartsTo(lengths, f, g, t);
    case Function(_, _) => GenericPartsTo(lengths, f, g, t);
    case _ =>
  }

  lemma {:induction false} GenericPartsTo<V, W, R, S>(lengths: Lengths, f: map<V, W>, g: map<R, S>, t: Type<V, R>)
    requires t.Apply? || t.Tuple? || t.Function?
    requires Within(f.Keys, g.Keys, t)
    ensures GenericAlike(lengths, f, g, t)
    decreases t, 0
  {
    hide GenericAlike, To;
    forall c | c in Parts(t) ensures Within(f.Keys, g.Keys, c) && GenericAlike(lengths, f, g, c) {
      GenericTo(lengths, f, g, c);
    }
    match t
    case Apply(_, _) => GenericApplyTo(lengths, f, g, t);
    case Tuple(_) => GenericTupleTo(lengths, f, g, t);
    case Function(_, _) => GenericFunctionTo(lengths, f, g, t);
  }

  ghost predicate GenericAlike<V, W, R, S>(lengths: Lengths, f: map<V, W>, g: map<R, S>, t: Type<V, R>)
    requires Within(f.Keys, g.Keys, t)
  {
    lengths.Generic(To(f, g, t)) == lengths.Generic(t)
  }

  ghost predicate PartsAlike<V, W, R, S>(lengths: Lengths, f: map<V, W>, g: map<R, S>, t: Type<V, R>) {
    forall c | c in Parts(t) :: Within(f.Keys, g.Keys, c) && GenericAlike(lengths, f, g, c)
  }

  lemma GenericTupleTo<V, W, R, S>(lengths: Lengths, f: map<V, W>, g: map<R, S>, t: Type<V, R>)
    requires t.Tuple? && Within(f.Keys, g.Keys, t) && PartsAlike(lengths, f, g, t)
    ensures GenericAlike(lengths, f, g, t)
  {
    GenericAllTo(lengths, f, g, t.elements);
  }

  lemma GenericAllTo<V, W, R, S>(lengths: Lengths, f: map<V, W>, g: map<R, S>, ts: seq<Type<V, R>>)
    requires WithinAll(f.Keys, g.Keys, ts)
    requires forall c | c in ts :: GenericAlike(lengths, f, g, c)
    ensures (exists c | c in AllTo(f, g, ts) :: lengths.Generic(c)) <==> exists c | c in ts :: lengths.Generic(c)
  {
    hide Lengths.Generic;
    var ts' := AllTo(f, g, ts);
    if c :| c in ts && lengths.Generic(c) {
      var k :| 0 <= k < |ts| && ts[k] == c;
      assert ts'[k] in ts' && lengths.Generic(ts'[k]);
    }
    if c :| c in ts' && lengths.Generic(c) {
      var k :| 0 <= k < |ts| && ts'[k] == c;
      assert ts[k] in ts && lengths.Generic(ts[k]);
    }
  }

  lemma GenericApplyTo<V, W, R, S>(lengths: Lengths, f: map<V, W>, g: map<R, S>, t: Type<V, R>)
    requires t.Apply? && Within(f.Keys, g.Keys, t) && PartsAlike(lengths, f, g, t)
    ensures GenericAlike(lengths, f, g, t)
  {
    var t' := To(f, g, t);
    forall k | 0 <= k < |t.arguments|
      ensures lengths.LengthAt(t'.head, k) == lengths.LengthAt(t.head, k)
      ensures lengths.Parameter(t'.arguments[k]) == lengths.Parameter(t.arguments[k])
      ensures lengths.Generic(t'.arguments[k]) == lengths.Generic(t.arguments[k])
    {
      assert t.arguments[k] in t.arguments;
    }
  }

  lemma GenericFunctionTo<V, W, R, S>(lengths: Lengths, f: map<V, W>, g: map<R, S>, t: Type<V, R>)
    requires t.Function? && Within(f.Keys, g.Keys, t) && PartsAlike(lengths, f, g, t)
    ensures GenericAlike(lengths, f, g, t)
  {
    assert t.result in Parts(t) && forall p | p in t.parameters :: p in Parts(t);
    GenericAllTo(lengths, f, g, t.parameters);
  }

  // ----- flattening changes only which parameters are written -----

  lemma {:induction false} FlattenKeeps<V, R>(lengths: Lengths, parameters: seq<Type<V, R>>, result: Type<V, R>)
    ensures var (flat, last) := Flatten(parameters, result);
            && parameters <= flat
            && (lengths.GenericSignature(flat, last) <==> lengths.GenericSignature(parameters, result))
    decreases result
  {
    if Splices(parameters, result) {
      FlattenKeeps(lengths, parameters + result.parameters, result.result);
      SpliceKeeps(lengths, parameters, result);
    }
  }

  lemma SpliceKeeps<V, R>(lengths: Lengths, parameters: seq<Type<V, R>>, result: Type<V, R>)
    requires result.Function?
    ensures lengths.GenericSignature(parameters + result.parameters, result.result)
            <==> lengths.GenericSignature(parameters, result)
  {
    var all := parameters + result.parameters;
    assert forall c :: c in all <==> c in parameters || c in result.parameters;
    assert lengths.Generic(result) <==> lengths.GenericSignature(result.parameters, result.result);
  }

  /** The flag of a function is told by its canonical form and by how many parameters are written. */
  lemma FlagOfCanonical<V, R>(lengths: Lengths, s: Signature<V, R>)
    ensures var c := Canonical(s);
            && |s.parameters| <= |c.parameters|
            && (lengths.Callbacks(s)
                <==> lengths.GenericSignature(c.parameters, c.result)
                     || exists k | 0 <= k < |s.parameters| :: MayCarry(c.parameters[k]))
  {
    hide MayCarry, Lengths.GenericSignature, RenameSignature, Flatten;
    NamedKeeps(lengths, s);
    var named := RenameSignature(s, Renaming(map[], map[])).0;
    FlattenKeeps(lengths, named.parameters, named.result);
    var flat := Canonical(s).parameters;
    assert forall k | 0 <= k < |s.parameters| :: MayCarry(flat[k]) == MayCarry(s.parameters[k]);
    if c :| c in s.parameters && MayCarry(c) {
      var k :| 0 <= k < |s.parameters| && s.parameters[k] == c;
      assert MayCarry(flat[k]);
    }
  }

  lemma NamedKeeps<V, R>(lengths: Lengths, s: Signature<V, R>)
    ensures var named := RenameSignature(s, Renaming(map[], map[])).0;
            && |named.parameters| == |s.parameters|
            && (forall k | 0 <= k < |s.parameters| :: MayCarry(named.parameters[k]) == MayCarry(s.parameters[k]))
            && (lengths.GenericSignature(named.parameters, named.result)
                <==> lengths.GenericSignature(s.parameters, s.result))
  {
    hide MayCarry, Lengths.Generic, RenameSignature, To;
    var empty: Renaming<V, R> := Renaming(map[], map[]);
    RenameSignatureIs(s, empty);
    var (named, st) := RenameSignature(s, empty);
    forall k | 0 <= k < |s.parameters| ensures MayCarry(named.parameters[k]) == MayCarry(s.parameters[k]) {
      CarryTo(st.variables, st.regions, s.parameters[k]);
    }
    forall t | t in s.parameters ensures GenericAlike(lengths, st.variables, st.regions, t) {
      GenericTo(lengths, st.variables, st.regions, t);
    }
    GenericTo(lengths, st.variables, st.regions, s.result);
    GenericAllTo(lengths, st.variables, st.regions, s.parameters);
  }

  /** Two spellings of one signature have different flags exactly when nothing in it is generic, the parameters
      that both write carry no function, and one that only the longer spelling writes does. */
  lemma FlagsDiffer<V, W, R, S>(lengths: Lengths, a: Signature<V, R>, b: Signature<W, S>)
    requires Canonical(a) == Canonical(b) && |a.parameters| <= |b.parameters|
    ensures |b.parameters| <= |Canonical(a).parameters|
    ensures lengths.Callbacks(a) != lengths.Callbacks(b)
            <==> && !lengths.GenericSignature(Canonical(a).parameters, Canonical(a).result)
                 && (forall k | 0 <= k < |a.parameters| :: !MayCarry(Canonical(a).parameters[k]))
                 && (exists k | |a.parameters| <= k < |b.parameters| :: MayCarry(Canonical(a).parameters[k]))
  {
    hide MayCarry, Canonical, Lengths.GenericSignature, Lengths.Callbacks;
    FlagOfCanonical(lengths, a);
    FlagOfCanonical(lengths, b);
  }

  // ----- the items of functions -----

  /** A function that is neither exported, constant nor pure, in an edition that does not borrow parameters. */
  function FunctionItem<V(==), R(==)>(
    lengths: Lengths, name: string, s: Signature<V, R>, asserts: set<nat>): ApiCompare.Item
  {
    ApiCompare.Item(
      ApiCompare.Key(name, "def"), ApiCompare.OfFunction(name, Canonical(s)), false, false,
      seq(|Flat(s).parameters|, _ => false), None, asserts, lengths.Callbacks(s), None, [], {}, {}, None, None)
  }

  function OnlyItem(item: ApiCompare.Item): ApiCompare.Api {
    ApiCompare.Api(Some("A"), map[item.key := item])
  }

  /** A new attribute breaks exactly if the flag of the first spelling is set. Spelling the signature anew does
      not break; but both together break exactly if the flag of the second spelling is set. */
  lemma SpellingMatters<V, W, R, S>(
    lengths: Lengths, name: string, a: Signature<V, R>, b: Signature<W, S>, asserts: set<nat>)
    requires Canonical(a) == Canonical(b) && asserts != {}
    ensures var x := OnlyItem(FunctionItem(lengths, name, a, {}));
            var y := OnlyItem(FunctionItem(lengths, name, a, asserts));
            var z := OnlyItem(FunctionItem(lengths, name, b, asserts));
            && (ApiCompare.Compatible(x, y) <==> !lengths.Callbacks(a))
            && ApiCompare.Compatible(y, z)
            && (ApiCompare.Compatible(x, z) <==> !lengths.Callbacks(b))
  {
    hide Canonical, Lengths.Callbacks;
    SameArity(a, b);
    var i, j, k :=
      FunctionItem(lengths, name, a, {}), FunctionItem(lengths, name, a, asserts),
        FunctionItem(lengths, name, b, asserts);
    ApiCompare.ItemReflexive(i);
    SingleCompatible(i, j);
    SingleCompatible(j, k);
    SingleCompatible(i, k);
    assert asserts - {} == asserts && asserts - asserts == {};
    assert ApiCompare.ItemCompatible(i, j) <==> !lengths.Callbacks(a);
    assert ApiCompare.ItemCompatible(j, k);
    assert ApiCompare.ItemCompatible(i, k) <==> !lengths.Callbacks(b);
  }

  lemma SameArity<V, W, R, S>(a: Signature<V, R>, b: Signature<W, S>)
    requires Canonical(a) == Canonical(b)
    ensures |Flat(a).parameters| == |Flat(b).parameters|
  {
    CanonicalOfFlat(a);
    CanonicalOfFlat(b);
  }

  lemma SingleCompatible(x: ApiCompare.Item, y: ApiCompare.Item)
    requires x.key == y.key
    ensures ApiCompare.Compatible(OnlyItem(x), OnlyItem(y)) <==> ApiCompare.ItemCompatible(x, y)
  {
    hide ApiCompare.ItemCompatible;
    assert OnlyItem(x).items[x.key] == x && OnlyItem(y).items[x.key] == y && x.key in OnlyItem(x).items;
  }

  /** An integer, and a result that takes a callback; or an integer and a callback: transitivity fails here. */
  lemma FlagMatters(lengths: Lengths)
    ensures var i64 := Named("i64");
            var callback := Function([i64], i64);
            var a: Signature<string, string> := Signature([], [i64], Function([callback], i64));
            var b: Signature<string, string> := Signature([], [i64, callback], i64);
            var x := OnlyItem(FunctionItem(lengths, "f", a, {}));
            var y := OnlyItem(FunctionItem(lengths, "f", a, {0}));
            var z := OnlyItem(FunctionItem(lengths, "f", b, {0}));
            && Canonical(a) == Canonical(b)
            && !lengths.Callbacks(a) && lengths.Callbacks(b)
            && ApiCompare.Compatible(x, y) && ApiCompare.Compatible(y, z) && !ApiCompare.Compatible(x, z)
  {
    hide ApiCompare.Compatible, FunctionItem, RenameSignature, Canonical, OnlyItem;
    var i64: Type<string, string> := Named("i64");
    var callback := Function([i64], i64);
    var a: Signature<string, string> := Signature([], [i64], Function([callback], i64));
    var b: Signature<string, string> := Signature([], [i64, callback], i64);
    assert [i64] + [callback] == [i64, callback];
    assert Flat(a) == Flat(b);
    CanonicalOfFlat(a);
    CanonicalOfFlat(b);
    assert callback in b.parameters && MayCarry(callback);
    SpellingMatters(lengths, "f", a, b, {0});
  }
}
