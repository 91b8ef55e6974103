/**
  The canonical form of a signature in the public API: type variables and regions are numbered by their
  first appearance, and arrows are flattened. Two signatures have the same canonical form exactly when
  they differ only in those names and in how their arrows are grouped.
 */
module ApiRenaming {

  datatype Kind = Array | ArrayView | List | SharedReference | MutableReference | Own | Mut | Pure

  datatype Head<V> = Constructor(name: string) | HeadVariable(variable: V)

  /** A type whose variables are named by `V` and whose regions are named by `R`. */
  datatype Type<V, R> =
    | Named(name: string)
    | Variable(variable: V)
    | Length(length: int)
    | Dyn(classes: seq<string>)
    | Apply(head: Head<V>, arguments: seq<Type<V, R>>)
    | Regions(inner: Type<V, R>, names: seq<R>)
    | Quantified(names: seq<R>, inner: Type<V, R>)
    | Wrapped(kind: Kind, inner: Type<V, R>)
    | FixedArray(element: Type<V, R>, count: Type<V, R>)
    | Tuple(elements: seq<Type<V, R>>)
    | Function(parameters: seq<Type<V, R>>, result: Type<V, R>)

  datatype Signature<V, R> = Signature(regions: seq<R>, parameters: seq<Type<V, R>>, result: Type<V, R>)

  // ----- the names of a type, and changing them -----

  function HeadVariables<V>(head: Head<V>): set<V> {
    if head.HeadVariable? then {head.variable} else {}
  }

  function Parts<V, R>(t: Type<V, R>): (r: seq<Type<V, R>>)
    ensures forall c | c in r :: c < t
  {
    match t
    case Apply(_, arguments) => arguments
    case Regions(inner, _) => [inner]
    case Quantified(_, inner) => [inner]
    case Wrapped(_, inner) => [inner]
    case FixedArray(element, count) => [element, count]
    case Tuple(elements) => elements
    case Function(parameters, result) => parameters + [result]
    case _ => []
  }

  /** Every variable of the type is in `vs`, and every region in `rs`. */
  ghost predicate Within<V, R>(vs: set<V>, rs: set<R>, t: Type<V, R>)
    decreases t
  {
    && (t.Variable? ==> t.variable in vs)
    && (t.Apply? ==> HeadVariables(t.head) <= vs)
    && (t.Regions? || t.Quantified? ==> forall x | x in t.names :: x in rs)
    && (forall c | c in Parts(t) :: Within(vs, rs, c))
  }

  ghost predicate WithinAll<V, R>(vs: set<V>, rs: set<R>, ts: seq<Type<V, R>>) {
    forall c | c in ts :: Within(vs, rs, c)
  }

  ghost predicate WithinSignature<V, R>(vs: set<V>, rs: set<R>, s: Signature<V, R>) {
    (forall x | x in s.regions :: x in rs) && WithinAll(vs, rs, s.parameters) && Within(vs, rs, s.result)
  }

  ghost function NamesTo<R, S>(g: map<R, S>, names: seq<R>): (r: seq<S>)
    requires forall x | x in names :: x in g
    ensures |r| == |names| && forall k | 0 <= k < |names| :: r[k] == g[names[k]]
  {
    seq(|names|, k requires 0 <= k < |names| => g[names[k]])
  }

  ghost function HeadTo<V, W>(f: map<V, W>, head: Head<V>): Head<W>
    requires HeadVariables(head) <= f.Keys
  {
    match head
    case Constructor(name) => Constructor(name)
    case HeadVariable(v) => HeadVariable(f[v])
  }

  /** The type with its names changed. */
  ghost function To<V, W, R, S>(f: map<V, W>, g: map<R, S>, t: Type<V, R>): Type<W, S>
    requires Within(f.Keys, g.Keys, t)
    decreases t
  {
    match t
    case Named(name) => Named(name)
    case Variable(v) => Variable(f[v])
    case Length(length) => Length(length)
    case Dyn(classes) => Dyn(classes)
    case Apply(head, arguments) => Apply(HeadTo(f, head), AllTo(f, g, arguments))
    case Regions(inner, names) => assert inner in Parts(t); Regions(To(f, g, inner), NamesTo(g, names))
    case Quantified(names, inner) => assert inner in Parts(t); Quantified(NamesTo(g, names), To(f, g, inner))
    case Wrapped(kind, inner) => assert inner in Parts(t); Wrapped(kind, To(f, g, inner))
    case FixedArray(element, count) =>
      assert element in Parts(t) && count in Parts(t); FixedArray(To(f, g, element), To(f, g, count))
    case Tuple(elements) => Tuple(AllTo(f, g, elements))
    case Function(parameters, result) =>
      assert result in Parts(t) && forall p | p in parameters :: p in Parts(t);
      Function(AllTo(f, g, parameters), To(f, g, result))
  }

  ghost function AllTo<V, W, R, S>(f: map<V, W>, g: map<R, S>, ts: seq<Type<V, R>>): (r: seq<Type<W, S>>)
    requires WithinAll(f.Keys, g.Keys, ts)
    ensures |r| == |ts|
    ensures forall k | 0 <= k < |ts| :: r[k] == To(f, g, ts[k])
    decreases ts
  {
    seq(|ts|, k requires 0 <= k < |ts| => To(f, g, ts[k]))
  }

  ghost function SignatureTo<V, W, R, S>(f: map<V, W>, g: map<R, S>, s: Signature<V, R>): Signature<W, S>
    requires WithinSignature(f.Keys, g.Keys, s)
  {
    Signature(NamesTo(g, s.regions), AllTo(f, g, s.parameters), To(f, g, s.result))
  }

  ghost predicate Injective<A, B>(f: map<A, B>) {
    forall x, y | x in f && y in f && f[x] == f[y] :: x == y
  }

  // ----- numbering by first appearance -----

  datatype Renaming<V, R> = Renaming(variables: map<V, nat>, regions: map<R, nat>)

  function Number<A>(names: map<A, nat>, x: A): (r: (nat, map<A, nat>))
    ensures x in r.1 && r.1[x] == r.0
    ensures forall y | y in names :: y in r.1 && r.1[y] == names[y]
    ensures r.1.Keys == names.Keys + {x}
  {
    if x in names then (names[x], names) else (|names|, names[x := |names|])
  }

  function RegionsOf<V, R>(names: seq<R>, st: Renaming<V, R>): (r: (seq<nat>, Renaming<V, R>))
    ensures |r.0| == |names|
    decreases |names|
  {
    if names == [] then ([], st)
    else
      var (n, regions) := Number(st.regions, names[0]);
      var (rest, st') := RegionsOf(names[1..], st.(regions := regions));
      ([n] + rest, st')
  }

  function Rename<V, R>(t: Type<V, R>, st: Renaming<V, R>): (r: (Type<nat, nat>, Renaming<V, R>))
    decreases t
  {
    match t
    case Named(name) => (Named(name), st)
    case Variable(v) =>
      var (n, variables) := Number(st.variables, v);
      (Variable(n), st.(variables := variables))
    case Length(length) => (Length(length), st)
    case Dyn(classes) => (Dyn(classes), st)
    case Apply(head, arguments) =>
      var (head', st1) := RenameHead(head, st);
      var (arguments', st2) := RenameAll(arguments, st1);
      (Apply(head', arguments'), st2)
    case Regions(inner, names) =>
      var (names', st1) := RegionsOf(names, st);
      var (inner', st2) := Rename(inner, st1);
      (Regions(inner', names'), st2)
    case Quantified(names, inner) =>
      var (names', st1) := RegionsOf(names, st);
      var (inner', st2) := Rename(inner, st1);
      (Quantified(names', inner'), st2)
    case Wrapped(kind, inner) =>
      var (inner', st1) := Rename(inner, st);
      (Wrapped(kind, inner'), st1)
    case FixedArray(element, count) =>
      var (element', st1) := Rename(element, st);
      var (count', st2) := Rename(count, st1);
      (FixedArray(element', count'), st2)
    case Tuple(elements) =>
      var (elements', st1) := RenameAll(elements, st);
      (Tuple(elements'), st1)
    case Function(parameters, result) =>
      var (parameters', st1) := RenameAll(parameters, st);
      var (result', st2) := Rename(result, st1);
      (Function(parameters', result'), st2)
  }

  function RenameHead<V, R>(head: Head<V>, st: Renaming<V, R>): (Head<nat>, Renaming<V, R>) {
    match head
    case Constructor(name) => (Constructor(name), st)
    case HeadVariable(v) =>
      var (n, variables) := Number(st.variables, v);
      (HeadVariable(n), st.(variables := variables))
  }

  function RenameAll<V, R>(ts: seq<Type<V, R>>, st: Renaming<V, R>): (r: (seq<Type<nat, nat>>, Renaming<V, R>))
    ensures |r.0| == |ts|
    decreases ts
  {
    if ts == [] then ([], st)
    else
      var (t, st1) := Rename(ts[0], st);
      var (rest, st2) := RenameAll(ts[1..], st1);
      ([t] + rest, st2)
  }

  // ----- flattening -----

  /** A function type with parameters that is the result of a function with parameters. */
  predicate Splices<V, R>(parameters: seq<Type<V, R>>, result: Type<V, R>) {
    parameters != [] && result.Function? && result.parameters != []
  }

  function Flatten<V, R>(parameters: seq<Type<V, R>>, result: Type<V, R>): (r: (seq<Type<V, R>>, Type<V, R>))
    ensures !Splices(r.0, r.1)
    decreases result
  {
    if Splices(parameters, result) then Flatten(parameters + result.parameters, result.result) else (parameters, result)
  }

  /** The loop that splices results in. */
  method FlattenLoop<V, R>(
    parameters: seq<Type<V, R>>, result: Type<V, R>) returns (parameters': seq<Type<V, R>>, result': Type<V, R>)
    ensures (parameters', result') == Flatten(parameters, result)
  {
    parameters', result' := parameters, result;
    while parameters' != [] && result'.Function? && result'.parameters != []
      invariant Flatten(parameters', result') == Flatten(parameters, result)
      decreases result'
    {
      parameters', result' := parameters' + result'.parameters, result'.result;
    }
  }

  function Flat<V, R>(s: Signature<V, R>): Signature<V, R> {
    var (parameters, result) := Flatten(s.parameters, s.result);
    Signature(s.regions, parameters, result)
  }

  /** Flattening again changes nothing. */
  lemma FlattenIdempotent<V, R>(s: Signature<V, R>)
    ensures Flat(Flat(s)) == Flat(s)
  {
  }

  function RenameSignature<V, R>(s: Signature<V, R>, st: Renaming<V, R>): (Signature<nat, nat>, Renaming<V, R>) {
    var (regions, st1) := RegionsOf(s.regions, st);
    var (parameters, st2) := RenameAll(s.parameters, st1);
    var (result, st3) := Rename(s.result, st2);
    (Signature(regions, parameters, result), st3)
  }

  /** The canonical form: names first, then arrows. */
  function Canonical<V(==), R(==)>(s: Signature<V, R>): Signature<nat, nat> {
    Flat(RenameSignature(s, Renaming(map[], map[])).0)
  }

  // ----- renaming and flattening commute -----

  lemma {:induction false} RenameAllJoin<V, R>(a: seq<Type<V, R>>, b: seq<Type<V, R>>, st: Renaming<V, R>)
    ensures var (a', st1) := RenameAll(a, st);
            var (b', st2) := RenameAll(b, st1);
            RenameAll(a + b, st) == (a' + b', st2)
    decreases |a|
  {
    if a == [] {
      assert a + b == b;
      assert [] + RenameAll(b, st).0 == RenameAll(b, st).0;
    } else {
      assert (a + b)[0] == a[0] && (a + b)[1..] == a[1..] + b;
      var (t, st1) := Rename(a[0], st);
      RenameAllJoin(a[1..], b, st1);
      var (rest, st2) := RenameAll(a[1..], st1);
      var (b', st3) := RenameAll(b, st2);
      assert [t] + (rest + b') == ([t] + rest) + b';
    }
  }

  lemma {:induction false} FlattenRenamed<V, R>(parameters: seq<Type<V, R>>, result: Type<V, R>, st: Renaming<V, R>)
    ensures var (parameters', st1) := RenameAll(parameters, st);
            var (result', st2) := Rename(result, st1);
            var (flat, last) := Flatten(parameters, result);
            var (flat', st3) := RenameAll(flat, st);
            var (last', st4) := Rename(last, st3);
            Flatten(parameters', result') == (flat', last') && st4 == st2
    decreases result
  {
    if Splices(parameters, result) {
      RenameAllJoin(parameters, result.parameters, st);
      FlattenRenamed(parameters + result.parameters, result.result, st);
    }
  }

  /** Flattening a renamed signature is renaming the flat one. */
  lemma CanonicalOfFlat<V, R>(s: Signature<V, R>)
    ensures Canonical(s) == RenameSignature(Flat(s), Renaming(map[], map[])).0
  {
    var (regions, st) := RegionsOf(s.regions, Renaming(map[], map[]));
    FlattenRenamed(s.parameters, s.result, st);
  }

  // ----- renaming is a change of names -----

  ghost predicate Extends<A>(m: map<A, nat>, m': map<A, nat>) {
    forall x | x in m :: x in m' && m'[x] == m[x]
  }

  ghost predicate Later<V, R>(st: Renaming<V, R>, st': Renaming<V, R>) {
    Extends(st.variables, st'.variables) && Extends(st.regions, st'.regions)
  }

  ghost predicate Numbered<A>(m: map<A, nat>) {
    Injective(m) && forall x | x in m :: m[x] < |m|
  }

  ghost predicate Good<V, R>(st: Renaming<V, R>) {
    Numbered(st.variables) && Numbered(st.regions)
  }

  lemma NumberGood<A>(m: map<A, nat>, x: A)
    requires Numbered(m)
    ensures Numbered(Number(m, x).1)
  {
  }

  lemma VariableLater<V, R>(st: Renaming<V, R>, v: V)
    ensures var st' := st.(variables := Number(st.variables, v).1);
            Later(st, st') && (Good(st) ==> Good(st')) && v in st'.variables
  {
    if Good(st) { NumberGood(st.variables, v); }
  }

  lemma RegionLater<V, R>(st: Renaming<V, R>, x: R)
    ensures var st' := st.(regions := Number(st.regions, x).1);
            Later(st, st') && (Good(st) ==> Good(st')) && x in st'.regions
  {
    if Good(st) { NumberGood(st.regions, x); }
  }

  lemma LaterTwice<V, R>(a: Renaming<V, R>, b: Renaming<V, R>, c: Renaming<V, R>)
    requires Later(a, b) && Later(b, c)
    ensures Later(a, c)
  {
  }

  lemma {:induction false} ToLater<V, R>(st: Renaming<V, R>, st': Renaming<V, R>, t: Type<V, R>)
    requires Later(st, st') && Within(st.variables.Keys, st.regions.Keys, t)
    ensures Within(st'.variables.Keys, st'.regions.Keys, t)
    ensures To(st'.variables, st'.regions, t) == To(st.variables, st.regions, t)
    decreases t
  {
    forall c | c in Parts(t)
      ensures Within(st'.variables.Keys, st'.regions.Keys, c)
              && To(st'.variables, st'.regions, c) == To(st.variables, st.regions, c)
    {
      ToLater(st, st', c);
    }
    match t
    case Apply(head, arguments) =>
      assert AllTo(st'.variables, st'.regions, arguments) == AllTo(st.variables, st.regions, arguments);
    case Regions(inner, names) =>
      assert inner in Parts(t);
      assert NamesTo(st'.regions, names) == NamesTo(st.regions, names);
    case Quantified(names, inner) =>
      assert inner in Parts(t);
      assert NamesTo(st'.regions, names) == NamesTo(st.regions, names);
    case Wrapped(_, inner) => assert inner in Parts(t);
    case FixedArray(element, count) => assert element in Parts(t) && count in Parts(t);
    case Tuple(elements) =>
      assert AllTo(st'.variables, st'.regions, elements) == AllTo(st.variables, st.regions, elements);
    case Function(parameters, result) =>
      assert result in Parts(t) && forall p | p in parameters :: p in Parts(t);
      assert AllTo(st'.variables, st'.regions, parameters) == AllTo(st.variables, st.regions, parameters);
    case _ =>
  }

  lemma RegionStays<V, R>(st: Renaming<V, R>, st': Renaming<V, R>, x: R)
    requires Later(st, st') && x in st.regions
    ensures x in st'.regions && st'.regions[x] == st.regions[x]
  {
  }

  lemma NamesToMore<R, S>(g: map<R, S>, names: seq<R>)
    requires names != [] && names[0] in g && forall x | x in names[1..] :: x in g
    ensures (forall x | x in names :: x in g) && NamesTo(g, names) == [g[names[0]]] + NamesTo(g, names[1..])
  {
    assert names == [names[0]] + names[1..];
  }

  lemma {:induction false} RegionsAre<V, R>(names: seq<R>, st: Renaming<V, R>)
    ensures var (names', st') := RegionsOf(names, st);
            && Later(st, st') && st'.variables == st.variables && (Good(st) ==> Good(st'))
            && (forall x | x in names :: x in st'.regions) && names' == NamesTo(st'.regions, names)
    decreases |names|
  {
    if names == [] {
      assert RegionsOf(names, st) == ([], st);
    } else {
      hide Good, Later;
      var (n, regions) := Number(st.regions, names[0]);
      RegionLater(st, names[0]);
      var st1 := st.(regions := regions);
      RegionsAre(names[1..], st1);
      var (rest, st2) := RegionsOf(names[1..], st1);
      LaterTwice(st, st1, st2);
      RegionStays(st1, st2, names[0]);
      hide Number;
      NamesToMore(st2.regions, names);
    }
  }

  /** What renaming makes is the type with its names changed by the final numbering. */
  ghost predicate Renamed<V, R>(t: Type<V, R>, t': Type<nat, nat>, st: Renaming<V, R>, st': Renaming<V, R>) {
    && Later(st, st') && (Good(st) ==> Good(st'))
    && Within(st'.variables.Keys, st'.regions.Keys, t) && t' == To(st'.variables, st'.regions, t)
  }

  ghost predicate RenamedAll<V, R>(
    ts: seq<Type<V, R>>, ts': seq<Type<nat, nat>>, st: Renaming<V, R>, st': Renaming<V, R>)
  {
    && Later(st, st') && (Good(st) ==> Good(st'))
    && WithinAll(st'.variables.Keys, st'.regions.Keys, ts) && ts' == AllTo(st'.variables, st'.regions, ts)
  }

  lemma AllToLater<V, R>(st: Renaming<V, R>, st': Renaming<V, R>, ts: seq<Type<V, R>>)
    requires Later(st, st') && WithinAll(st.variables.Keys, st.regions.Keys, ts)
    ensures WithinAll(st'.variables.Keys, st'.regions.Keys, ts)
    ensures AllTo(st'.variables, st'.regions, ts) == AllTo(st.variables, st.regions, ts)
  {
    forall c | c in ts
      ensures Within(st'.variables.Keys, st'.regions.Keys, c)
              && To(st'.variables, st'.regions, c) == To(st.variables, st.regions, c)
    {
      ToLater(st, st', c);
    }
  }

  lemma {:induction false} RenameIs<V, R>(t: Type<V, R>, st: Renaming<V, R>)
    ensures Renamed(t, Rename(t, st).0, st, Rename(t, st).1)
    decreases t, 1
  {
    hide Good, Later, Number;
    match t
    case Named(_) => LaterSame(st);
    case Variable(v) => VariableLater(st, v);
    case Length(_) => LaterSame(st);
    case Dyn(_) => LaterSame(st);
    case Apply(_, _) => RenameApplyIs(t, st);
    case Regions(inner, names) => RenameRegionsIs(t, inner, names, st);
    case Quantified(names, inner) => RenameRegionsIs(t, inner, names, st);
    case Wrapped(_, inner) => RenameIs(inner, st);
    case FixedArray(_, _) => RenamePairIs(t, st);
    case Tuple(elements) => RenameAllIs(elements, st);
    case Function(_, _) => RenameFunctionIs(t, st);
  }

  lemma LaterSame<V, R>(st: Renaming<V, R>)
    ensures Later(st, st)
  {
  }

  lemma NamesToLater<V, R>(st: Renaming<V, R>, st': Renaming<V, R>, names: seq<R>)
    requires Later(st, st') && forall x | x in names :: x in st.regions
    ensures (forall x | x in names :: x in st'.regions) && NamesTo(st'.regions, names) == NamesTo(st.regions, names)
  {
  }

  lemma HeadToLater<V, R>(st: Renaming<V, R>, st': Renaming<V, R>, head: Head<V>)
    requires Later(st, st') && HeadVariables(head) <= st.variables.Keys
    ensures HeadVariables(head) <= st'.variables.Keys && HeadTo(st'.variables, head) == HeadTo(st.variables, head)
  {
  }

  lemma {:induction false} RenameApplyIs<V, R>(t: Type<V, R>, st: Renaming<V, R>)
    requires t.Apply?
    ensures Renamed(t, Rename(t, st).0, st, Rename(t, st).1)
    decreases t, 0
  {
    hide Good, Later, Number;
    var (head', st1) := RenameHead(t.head, st);
    if t.head.HeadVariable? { VariableLater(st, t.head.variable); } else { LaterSame(st); }
    RenameAllIs(t.arguments, st1);
    var st2 := RenameAll(t.arguments, st1).1;
    LaterTwice(st, st1, st2);
    HeadNumbered(t.head, st);
    HeadToLater(st1, st2, t.head);
  }

  lemma HeadNumbered<V, R>(head: Head<V>, st: Renaming<V, R>)
    ensures var (head', st') := RenameHead(head, st);
            HeadVariables(head) <= st'.variables.Keys && head' == HeadTo(st'.variables, head)
  {
  }

  lemma {:induction false} RenamePairIs<V, R>(t: Type<V, R>, st: Renaming<V, R>)
    requires t.FixedArray?
    ensures Renamed(t, Rename(t, st).0, st, Rename(t, st).1)
    decreases t, 0
  {
    hide Good, Later;
    RenameIs(t.element, st);
    var st1 := Rename(t.element, st).1;
    RenameIs(t.count, st1);
    var st2 := Rename(t.count, st1).1;
    ToLater(st1, st2, t.element);
    LaterTwice(st, st1, st2);
  }

  lemma {:induction false} RenameFunctionIs<V, R>(t: Type<V, R>, st: Renaming<V, R>)
    requires t.Function?
    ensures Renamed(t, Rename(t, st).0, st, Rename(t, st).1)
    decreases t, 0
  {
    hide Good, Later;
    RenameAllIs(t.parameters, st);
    var st1 := RenameAll(t.parameters, st).1;
    RenameIs(t.result, st1);
    var st2 := Rename(t.result, st1).1;
    AllToLater(st1, st2, t.parameters);
    LaterTwice(st, st1, st2);
    FunctionTo(st2.variables, st2.regions, t.parameters, t.result);
    hide To, Within;
  }

  lemma FunctionTo<V, W, R, S>(f: map<V, W>, g: map<R, S>, parameters: seq<Type<V, R>>, result: Type<V, R>)
    requires WithinAll(f.Keys, g.Keys, parameters) && Within(f.Keys, g.Keys, result)
    ensures Within(f.Keys, g.Keys, Function(parameters, result))
    ensures To(f, g, Function(parameters, result)) == Function(AllTo(f, g, parameters), To(f, g, result))
  {
  }

  lemma {:induction false} RenameRegionsIs<V, R>(t: Type<V, R>, inner: Type<V, R>, names: seq<R>, st: Renaming<V, R>)
    requires t == Regions(inner, names) || t == Quantified(names, inner)
    ensures Renamed(t, Rename(t, st).0, st, Rename(t, st).1)
    decreases t, 0
  {
    hide Good, Later, RegionsOf, Number, To, Within;
    RegionsAre(names, st);
    var (names', st1) := RegionsOf(names, st);
    RenameIs(inner, st1);
    var st2 := Rename(inner, st1).1;
    LaterTwice(st, st1, st2);
    NamesToLater(st1, st2, names);
    RegionsTo(st2.variables, st2.regions, inner, names);
  }

  lemma RegionsTo<V, W, R, S>(f: map<V, W>, g: map<R, S>, inner: Type<V, R>, names: seq<R>)
    requires Within(f.Keys, g.Keys, inner) && forall x | x in names :: x in g
    ensures var t: Type<V, R> := Regions(inner, names);
            Within(f.Keys, g.Keys, t) && To(f, g, t) == Regions(To(f, g, inner), NamesTo(g, names))
    ensures var t: Type<V, R> := Quantified(names, inner);
            Within(f.Keys, g.Keys, t) && To(f, g, t) == Quantified(NamesTo(g, names), To(f, g, inner))
  {
  }

  lemma {:induction false} RenameAllIs<V, R>(ts: seq<Type<V, R>>, st: Renaming<V, R>)
    ensures RenamedAll(ts, RenameAll(ts, st).0, st, RenameAll(ts, st).1)
    decreases ts, 0
  {
    hide Good, Later, Rename, To, Within;
    if ts == [] {
      LaterSame(st);
    } else {
      hide RenamedAll, Renamed;
      RenameIs(ts[0], st);
      var (t, st1) := Rename(ts[0], st);
      RenameAllIs(ts[1..], st1);
      var (rest, st2) := RenameAll(ts[1..], st1);
      RenamedFirst(ts, t, rest, st, st1, st2);
    }
  }

  lemma RenamedFirst<V, R>(
    ts: seq<Type<V, R>>, t: Type<nat, nat>, rest: seq<Type<nat, nat>>, st: Renaming<V, R>, st1: Renaming<V, R>,
    st2: Renaming<V, R>)
    requires ts != [] && Renamed(ts[0], t, st, st1) && RenamedAll(ts[1..], rest, st1, st2)
    ensures RenamedAll(ts, [t] + rest, st, st2)
  {
    hide Good, Later, To, Within, AllTo, WithinAll;
    LaterTwice(st, st1, st2);
    ToLater(st1, st2, ts[0]);
    AllToFirst(st2.variables, st2.regions, ts);
  }

  lemma AllToFirst<V, W, R, S>(f: map<V, W>, g: map<R, S>, ts: seq<Type<V, R>>)
    requires ts != [] && Within(f.Keys, g.Keys, ts[0]) && WithinAll(f.Keys, g.Keys, ts[1..])
    ensures WithinAll(f.Keys, g.Keys, ts) && AllTo(f, g, ts) == [To(f, g, ts[0])] + AllTo(f, g, ts[1..])
  {
    hide To, Within;
    forall c | c in ts ensures Within(f.Keys, g.Keys, c) {
      var k :| 0 <= k < |ts| && ts[k] == c;
      assert k > 0 ==> ts[1..][k - 1] == c;
    }
    forall k | 0 < k < |ts| ensures AllTo(f, g, ts)[k] == AllTo(f, g, ts[1..])[k - 1] {
      assert ts[1..][k - 1] == ts[k];
    }
  }

  lemma RenameSignatureIs<V, R>(s: Signature<V, R>, st: Renaming<V, R>)
    requires Good(st)
    ensures var (s', st') := RenameSignature(s, st);
            && Good(st') && WithinSignature(st'.variables.Keys, st'.regions.Keys, s)
            && s' == SignatureTo(st'.variables, st'.regions, s)
  {
    RegionsAre(s.regions, st);
    var (regions, st1) := RegionsOf(s.regions, st);
    RenameAllIs(s.parameters, st1);
    var (parameters, st2) := RenameAll(s.parameters, st1);
    RenameIs(s.result, st2);
    var (result, st3) := Rename(s.result, st2);
    AllToLater(st2, st3, s.parameters);
    assert NamesTo(st3.regions, s.regions) == regions;
  }

  // ----- equal canonical forms have a change of names between them -----

  ghost predicate HasName<A>(m: map<A, nat>, n: nat) {
    exists x | x in m :: m[x] == n
  }

  ghost function NameOf<A>(m: map<A, nat>, n: nat): (x: A)
    requires HasName(m, n)
    ensures x in m && m[x] == n
  {
    var x :| x in m && m[x] == n;
    x
  }

  /** From a name of one numbering to the name with the same number in the other. */
  ghost function Bridge<A, B>(a: map<A, nat>, b: map<B, nat>): map<A, B> {
    map x | x in a && HasName(b, a[x]) :: NameOf(b, a[x])
  }

  lemma BridgeInjective<A, B>(a: map<A, nat>, b: map<B, nat>)
    requires Injective(a)
    ensures Injective(Bridge(a, b))
  {
  }

  lemma BridgeAt<A, B>(a: map<A, nat>, b: map<B, nat>, x: A, y: B)
    requires Injective(b) && x in a && y in b && a[x] == b[y]
    ensures x in Bridge(a, b) && Bridge(a, b)[x] == y
  {
    assert HasName(b, a[x]);
  }

  lemma BridgeNames<A, B>(a: map<A, nat>, b: map<B, nat>, xs: seq<A>, ys: seq<B>)
    requires Injective(b) && (forall x | x in xs :: x in a) && (forall y | y in ys :: y in b)
             && NamesTo(a, xs) == NamesTo(b, ys)
    ensures (forall x | x in xs :: x in Bridge(a, b)) && NamesTo(Bridge(a, b), xs) == ys
  {
    assert |xs| == |ys|;
    forall k | 0 <= k < |xs| ensures xs[k] in Bridge(a, b) && Bridge(a, b)[xs[k]] == ys[k] {
      assert NamesTo(a, xs)[k] == NamesTo(b, ys)[k];
      BridgeAt(a, b, xs[k], ys[k]);
    }
  }

  ghost predicate SameNumbers<V, W, R, S>(
    a: map<V, nat>, b: map<W, nat>, ra: map<R, nat>, rb: map<S, nat>, s: Type<V, R>, t: Type<W, S>)
  {
    Within(a.Keys, ra.Keys, s) && Within(b.Keys, rb.Keys, t) && To(a, ra, s) == To(b, rb, t)
  }

  lemma {:induction false} BridgeType<V, W, R, S>(
    a: map<V, nat>, b: map<W, nat>, ra: map<R, nat>, rb: map<S, nat>, s: Type<V, R>, t: Type<W, S>)
    requires Injective(b) && Injective(rb) && SameNumbers(a, b, ra, rb, s, t)
    ensures Within(Bridge(a, b).Keys, Bridge(ra, rb).Keys, s) && To(Bridge(a, b), Bridge(ra, rb), s) == t
    decreases s, 1
  {
    hide Bridge, Injective;
    match s
    case Named(_) =>
    case Variable(v) => BridgeAt(a, b, v, t.variable);
    case Length(_) =>
    case Dyn(_) =>
    case Apply(_, _) => BridgeApply(a, b, ra, rb, s, t);
    case Regions(_, _) => BridgeRegions(a, b, ra, rb, s, t);
    case Quantified(_, _) => BridgeRegions(a, b, ra, rb, s, t);
    case Wrapped(_, inner) =>
      assert inner in Parts(s) && t.inner in Parts(t);
      BridgeType(a, b, ra, rb, inner, t.inner);
    case FixedArray(_, _) => BridgePair(a, b, ra, rb, s, t);
    case Tuple(elements) => BridgeAll(a, b, ra, rb, elements, t.elements);
    case Function(_, _) => BridgeFunction(a, b, ra, rb, s, t);
  }

  lemma {:induction false} BridgeApply<V, W, R, S>(
    a: map<V, nat>, b: map<W, nat>, ra: map<R, nat>, rb: map<S, nat>, s: Type<V, R>, t: Type<W, S>)
    requires Injective(b) && Injective(rb) && SameNumbers(a, b, ra, rb, s, t) && s.Apply?
    ensures Within(Bridge(a, b).Keys, Bridge(ra, rb).Keys, s) && To(Bridge(a, b), Bridge(ra, rb), s) == t
    decreases s, 0
  {
    hide Bridge, Injective;
    if s.head.HeadVariable? { BridgeAt(a, b, s.head.variable, t.head.variable); }
    BridgeAll(a, b, ra, rb, s.arguments, t.arguments);
  }

  lemma {:induction false} BridgeRegions<V, W, R, S>(
    a: map<V, nat>, b: map<W, nat>, ra: map<R, nat>, rb: map<S, nat>, s: Type<V, R>, t: Type<W, S>)
    requires Injective(b) && Injective(rb) && SameNumbers(a, b, ra, rb, s, t) && (s.Regions? || s.Quantified?)
    ensures Within(Bridge(a, b).Keys, Bridge(ra, rb).Keys, s) && To(Bridge(a, b), Bridge(ra, rb), s) == t
    decreases s, 0
  {
    hide Bridge, Injective;
    assert s.inner in Parts(s) && t.inner in Parts(t);
    BridgeNames(ra, rb, s.names, t.names);
    BridgeType(a, b, ra, rb, s.inner, t.inner);
  }

  lemma {:induction false} BridgePair<V, W, R, S>(
    a: map<V, nat>, b: map<W, nat>, ra: map<R, nat>, rb: map<S, nat>, s: Type<V, R>, t: Type<W, S>)
    requires Injective(b) && Injective(rb) && SameNumbers(a, b, ra, rb, s, t) && s.FixedArray?
    ensures Within(Bridge(a, b).Keys, Bridge(ra, rb).Keys, s) && To(Bridge(a, b), Bridge(ra, rb), s) == t
    decreases s, 0
  {
    hide Bridge, Injective;
    assert s.element in Parts(s) && s.count in Parts(s) && t.element in Parts(t) && t.count in Parts(t);
    BridgeType(a, b, ra, rb, s.element, t.element);
    BridgeType(a, b, ra, rb, s.count, t.count);
  }

  lemma {:induction false} BridgeFunction<V, W, R, S>(
    a: map<V, nat>, b: map<W, nat>, ra: map<R, nat>, rb: map<S, nat>, s: Type<V, R>, t: Type<W, S>)
    requires Injective(b) && Injective(rb) && SameNumbers(a, b, ra, rb, s, t) && s.Function?
    ensures Within(Bridge(a, b).Keys, Bridge(ra, rb).Keys, s) && To(Bridge(a, b), Bridge(ra, rb), s) == t
    decreases s, 0
  {
    hide Bridge, Injective, Parts;
    FunctionWithin(a.Keys, ra.Keys, s.parameters, s.result);
    FunctionTo(a, ra, s.parameters, s.result);
    assert t.Function?;
    FunctionWithin(b.Keys, rb.Keys, t.parameters, t.result);
    FunctionTo(b, rb, t.parameters, t.result);
    hide Within, To;
    BridgeAll(a, b, ra, rb, s.parameters, t.parameters);
    BridgeType(a, b, ra, rb, s.result, t.result);
    FunctionTo(Bridge(a, b), Bridge(ra, rb), s.parameters, s.result);
  }

  lemma FunctionWithin<V, R>(vs: set<V>, rs: set<R>, parameters: seq<Type<V, R>>, result: Type<V, R>)
    requires Within(vs, rs, Function(parameters, result))
    ensures WithinAll(vs, rs, parameters) && Within(vs, rs, result)
  {
    var t := Function(parameters, result);
    assert result in Parts(t) && forall p | p in parameters :: p in Parts(t);
  }

  lemma {:induction false} BridgeAll<V, W, R, S>(
    a: map<V, nat>, b: map<W, nat>, ra: map<R, nat>, rb: map<S, nat>, ss: seq<Type<V, R>>, ts: seq<Type<W, S>>)
    requires Injective(b) && Injective(rb)
    requires WithinAll(a.Keys, ra.Keys, ss) && WithinAll(b.Keys, rb.Keys, ts) && AllTo(a, ra, ss) == AllTo(b, rb, ts)
    ensures WithinAll(Bridge(a, b).Keys, Bridge(ra, rb).Keys, ss) && AllTo(Bridge(a, b), Bridge(ra, rb), ss) == ts
    decreases ss, 0
  {
    hide Within, To, Bridge;
    assert |ss| == |ts|;
    forall k | 0 <= k < |ss|
      ensures Within(Bridge(a, b).Keys, Bridge(ra, rb).Keys, ss[k]) && To(Bridge(a, b), Bridge(ra, rb), ss[k]) == ts[k]
    {
      assert AllTo(a, ra, ss)[k] == AllTo(b, rb, ts)[k];
      BridgeType(a, b, ra, rb, ss[k], ts[k]);
    }
  }

  // ----- a change of names does not change the canonical form -----

  /** The two numberings agree along the change of names. */
  ghost predicate Along<A, B>(f: map<A, B>, m: map<A, nat>, m': map<B, nat>) {
    |m| == |m'| && forall x | x in f :: (x in m <==> f[x] in m') && (x in m ==> m[x] == m'[f[x]])
  }

  ghost predicate AlongBoth<V, W, R, S>(f: map<V, W>, g: map<R, S>, st: Renaming<V, R>, st': Renaming<W, S>) {
    Along(f, st.variables, st'.variables) && Along(g, st.regions, st'.regions)
  }

  lemma NumberAlong<A, B>(f: map<A, B>, m: map<A, nat>, m': map<B, nat>, x: A)
    requires Injective(f) && Along(f, m, m') && x in f
    ensures Number(m, x).0 == Number(m', f[x]).0 && Along(f, Number(m, x).1, Number(m', f[x]).1)
  {
    if x !in m {
      var n, n' := Number(m, x).1, Number(m', f[x]).1;
      assert n.Keys == m.Keys + {x} && |n| == |n.Keys| && |m| == |m.Keys|;
      assert n'.Keys == m'.Keys + {f[x]} && |n'| == |n'.Keys| && |m'| == |m'.Keys|;
    }
  }

  lemma {:induction false} RegionsAlong<V, W, R, S>(
    f: map<V, W>, g: map<R, S>, names: seq<R>, st: Renaming<V, R>, st': Renaming<W, S>)
    requires Injective(f) && Injective(g) && AlongBoth(f, g, st, st') && forall x | x in names :: x in g
    ensures var (r, st1), (r', st1') := RegionsOf(names, st), RegionsOf(NamesTo(g, names), st');
            r == r' && AlongBoth(f, g, st1, st1')
    decreases |names|
  {
    if names != [] {
      hide Along, Number;
      NumberAlong(g, st.regions, st'.regions, names[0]);
      assert NamesTo(g, names)[1..] == NamesTo(g, names[1..]);
      RegionsAlong(f, g, names[1..], st.(regions := Number(st.regions, names[0]).1),
                   st'.(regions := Number(st'.regions, g[names[0]]).1));
    }
  }

  ghost predicate Agree<V, W, R, S>(
    f: map<V, W>, g: map<R, S>, r: (Type<nat, nat>, Renaming<V, R>), r': (Type<nat, nat>, Renaming<W, S>))
  {
    r.0 == r'.0 && AlongBoth(f, g, r.1, r'.1)
  }

  lemma {:induction false} RenameAlong<V, W, R, S>(
    f: map<V, W>, g: map<R, S>, t: Type<V, R>, st: Renaming<V, R>, st': Renaming<W, S>)
    requires Injective(f) && Injective(g) && AlongBoth(f, g, st, st') && Within(f.Keys, g.Keys, t)
    ensures Agree(f, g, Rename(t, st), Rename(To(f, g, t), st'))
    decreases t, 1
  {
    hide Along, Number, Injective;
    match t
    case Named(_) =>
    case Variable(v) => NumberAlong(f, st.variables, st'.variables, v);
    case Length(_) =>
    case Dyn(_) =>
    case Apply(_, _) => ApplyAlong(f, g, t, st, st');
    case Regions(_, _) => InnerAlong(f, g, t, st, st');
    case Quantified(_, _) => InnerAlong(f, g, t, st, st');
    case Wrapped(_, inner) =>
      assert inner in Parts(t);
      RenameAlong(f, g, inner, st, st');
    case FixedArray(_, _) => PairAlong(f, g, t, st, st');
    case Tuple(elements) => AllAlong(f, g, elements, st, st');
    case Function(_, _) => FunctionAlong(f, g, t, st, st');
  }

  lemma {:induction false} ApplyAlong<V, W, R, S>(
    f: map<V, W>, g: map<R, S>, t: Type<V, R>, st: Renaming<V, R>, st': Renaming<W, S>)
    requires Injective(f) && Injective(g) && AlongBoth(f, g, st, st') && Within(f.Keys, g.Keys, t) && t.Apply?
    ensures Agree(f, g, Rename(t, st), Rename(To(f, g, t), st'))
    decreases t, 0
  {
    hide Along, Number, Injective;
    if t.head.HeadVariable? { NumberAlong(f, st.variables, st'.variables, t.head.variable); }
    var st1, st1' := RenameHead(t.head, st).1, RenameHead(HeadTo(f, t.head), st').1;
    AllAlong(f, g, t.arguments, st1, st1');
  }

  lemma {:induction false} InnerAlong<V, W, R, S>(
    f: map<V, W>, g: map<R, S>, t: Type<V, R>, st: Renaming<V, R>, st': Renaming<W, S>)
    requires Injective(f) && Injective(g) && AlongBoth(f, g, st, st') && Within(f.Keys, g.Keys, t)
             && (t.Regions? || t.Quantified?)
    ensures Agree(f, g, Rename(t, st), Rename(To(f, g, t), st'))
    decreases t, 0
  {
    hide Along, Number, Injective;
    assert t.inner in Parts(t);
    RegionsAlong(f, g, t.names, st, st');
    RenameAlong(f, g, t.inner, RegionsOf(t.names, st).1, RegionsOf(NamesTo(g, t.names), st').1);
  }

  lemma {:induction false} PairAlong<V, W, R, S>(
    f: map<V, W>, g: map<R, S>, t: Type<V, R>, st: Renaming<V, R>, st': Renaming<W, S>)
    requires Injective(f) && Injective(g) && AlongBoth(f, g, st, st') && Within(f.Keys, g.Keys, t) && t.FixedArray?
    ensures Agree(f, g, Rename(t, st), Rename(To(f, g, t), st'))
    decreases t, 0
  {
    hide Along, Number, Injective;
    assert t.element in Parts(t) && t.count in Parts(t);
    RenameAlong(f, g, t.element, st, st');
    RenameAlong(f, g, t.count, Rename(t.element, st).1, Rename(To(f, g, t.element), st').1);
  }

  lemma {:induction false} FunctionAlong<V, W, R, S>(
    f: map<V, W>, g: map<R, S>, t: Type<V, R>, st: Renaming<V, R>, st': Renaming<W, S>)
    requires Injective(f) && Injective(g) && AlongBoth(f, g, st, st') && Within(f.Keys, g.Keys, t) && t.Function?
    ensures Agree(f, g, Rename(t, st), Rename(To(f, g, t), st'))
    decreases t, 0
  {
    hide Along, Number, Injective;
    FunctionWithin(f.Keys, g.Keys, t.parameters, t.result);
    FunctionTo(f, g, t.parameters, t.result);
    hide Within, To;
    AllAlong(f, g, t.parameters, st, st');
    RenameAlong(f, g, t.result, RenameAll(t.parameters, st).1, RenameAll(AllTo(f, g, t.parameters), st').1);
  }

  lemma {:induction false} AllAlong<V, W, R, S>(
    f: map<V, W>, g: map<R, S>, ts: seq<Type<V, R>>, st: Renaming<V, R>, st': Renaming<W, S>)
    requires Injective(f) && Injective(g) && AlongBoth(f, g, st, st') && WithinAll(f.Keys, g.Keys, ts)
    ensures var (r, st1), (r', st1') := RenameAll(ts, st), RenameAll(AllTo(f, g, ts), st');
            r == r' && AlongBoth(f, g, st1, st1')
    decreases ts, 0
  {
    hide Along, Number, Injective, Within, To;
    if ts != [] {
      RenameAlong(f, g, ts[0], st, st');
      assert AllTo(f, g, ts)[1..] == AllTo(f, g, ts[1..]);
      AllAlong(f, g, ts[1..], Rename(ts[0], st).1, Rename(To(f, g, ts[0]), st').1);
    }
  }

  // ----- the canonical form decides alpha-equivalence -----

  /** Some one-to-one change of variable names and of region names turns `a` into `b`. */
  ghost predicate AlphaEquivalent<V(!new), W(!new), R(!new), S(!new)>(a: Signature<V, R>, b: Signature<W, S>) {
    exists f: map<V, W>, g: map<R, S> ::
      Injective(f) && Injective(g) && WithinSignature(f.Keys, g.Keys, a) && SignatureTo(f, g, a) == b
  }

  lemma SignatureAlong<V, W, R, S>(f: map<V, W>, g: map<R, S>, a: Signature<V, R>)
    requires Injective(f) && Injective(g) && WithinSignature(f.Keys, g.Keys, a)
    ensures RenameSignature(a, Renaming(map[], map[])).0
            == RenameSignature(SignatureTo(f, g, a), Renaming(map[], map[])).0
  {
    hide Injective;
    var st: Renaming<V, R>, st': Renaming<W, S> := Renaming(map[], map[]), Renaming(map[], map[]);
    RegionsAlong(f, g, a.regions, st, st');
    var st1, st1' := RegionsOf(a.regions, st).1, RegionsOf(NamesTo(g, a.regions), st').1;
    AllAlong(f, g, a.parameters, st1, st1');
    RenameAlong(f, g, a.result, RenameAll(a.parameters, st1).1, RenameAll(AllTo(f, g, a.parameters), st1').1);
  }

  lemma SignatureBridge<V(!new), W(!new), R(!new), S(!new)>(a: Signature<V, R>, b: Signature<W, S>)
    requires RenameSignature(a, Renaming(map[], map[])).0 == RenameSignature(b, Renaming(map[], map[])).0
    ensures AlphaEquivalent(a, b)
  {
    hide Within, To, Bridge;
    RenameSignatureIs(a, Renaming(map[], map[]));
    RenameSignatureIs(b, Renaming(map[], map[]));
    var m, n := RenameSignature(a, Renaming(map[], map[])).1, RenameSignature(b, Renaming(map[], map[])).1;
    var f, g := Bridge(m.variables, n.variables), Bridge(m.regions, n.regions);
    BridgeInjective(m.variables, n.variables);
    BridgeInjective(m.regions, n.regions);
    BridgeNames(m.regions, n.regions, a.regions, b.regions);
    BridgeAll(m.variables, n.variables, m.regions, n.regions, a.parameters, b.parameters);
    BridgeType(m.variables, n.variables, m.regions, n.regions, a.result, b.result);
    assert SignatureTo(f, g, a) == b;
  }

  /** Two signatures have one canonical form exactly when, with their arrows flattened, they differ only in
      the names of variables and regions. */
  lemma CanonicalDecides<V(!new), W(!new), R(!new), S(!new)>(a: Signature<V, R>, b: Signature<W, S>)
    ensures Canonical(a) == Canonical(b) <==> AlphaEquivalent(Flat(a), Flat(b))
  {
    hide Flat, RenameSignature, Injective;
    CanonicalOfFlat(a);
    CanonicalOfFlat(b);
    if Canonical(a) == Canonical(b) {
      SignatureBridge(Flat(a), Flat(b));
    }
    if AlphaEquivalent(Flat(a), Flat(b)) {
      var f: map<V, W>, g: map<R, S> :| Injective(f) && Injective(g) && WithinSignature(f.Keys, g.Keys, Flat(a))
                                         && SignatureTo(f, g, Flat(a)) == Flat(b);
      SignatureAlong(f, g, Flat(a));
    }
  }
}
