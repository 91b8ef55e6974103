/**
  Comparing two versions of a public API. The loops report exactly the changes that there are, one of
  them is breaking exactly when the new API is not compatible with the old one, and compatibility is a
  preorder exactly as far as stated.
 */
module ApiCompare {
  import opened Basics
  import ApiRenaming

  datatype MemberKind = Field | Case | Method

  datatype Member = Member(kind: MemberKind, name: string, text: string, default: bool, pure_: Option<nat>,
                           contract: Option<string>)

  datatype ContractLine = RequiresLine(text: string) | EnsuresLine(text: string)

  datatype Key = Key(name: string, kind: string)

  /** The canonical text of a declaration; for a function, what it is made from. */
  datatype Header = Text(text: string) | OfFunction(name: string, canonical: ApiRenaming.Signature<nat, nat>)

  datatype Item = Item(
    key: Key,
    header: Header,
    exported: bool,
    constant: bool,
    borrowingDefaults: seq<bool>,
    pure_: Option<nat>,
    asserts: set<nat>,
    callbacks: bool,
    contract: Option<string>,
    members: seq<Member>,
    derives: set<string>,
    contracts: set<ContractLine>,
    doc: Option<string>,
    deprecated: Option<string>)

  datatype Api = Api(namespace: Option<string>, items: map<Key, Item>)

  datatype Action = Removed | Added | Changed | Deprecated | Undeprecated | Documented

  /** What a change is about. */
  datatype Subject =
    | Namespace
    | OfItem(key: Key)
    | OfMember(key: Key, member: string)
    | OrderOf(key: Key)
    | Derive(key: Key, class_: string)
    | Contract(key: Key, line: ContractLine)

  datatype Change = Change(breaking: bool, action: Action, subject: Subject)

  predicate HasBreaking(changes: seq<Change>) {
    exists c | c in changes :: c.breaking
  }

  // ----- members -----

  /** `index` says where the member of each name is. */
  ghost predicate Indexes(index: map<string, nat>, members: seq<Member>) {
    && (forall name | name in index :: index[name] < |members| && members[index[name]].name == name)
    && (forall k | 0 <= k < |members| :: members[k].name in index)
  }

  /** Where the member of each name is: the last one, if several have the name. */
  function ByName(members: seq<Member>): (r: map<string, nat>)
    ensures Indexes(r, members)
  {
    if members == [] then map[]
    else
      var last := |members| - 1;
      ByName(members[..last])[members[last].name := last]
  }

  predicate SignatureChanged(was: Member, now: Member) {
    || was.text != now.text
    || was.pure_ != now.pure_
    || (was.contract != now.contract && !(!was.default && now.default))
  }

  predicate MemberBreaks(was: Member, now: Member) {
    SignatureChanged(was, now) || (was.default && !now.default)
  }

  predicate HasMethod(members: seq<Member>) {
    exists k | 0 <= k < |members| :: members[k].kind == Method
  }

  /** The names of the members that `other` has as well, in order. */
  function Common(members: seq<Member>, other: map<string, nat>): (r: seq<string>)
    ensures forall name | name in r :: name in other
  {
    if members == [] then []
    else
      var last := members[|members| - 1];
      var front := Common(members[..|members| - 1], other);
      if last.name in other then front + [last.name] else front
  }

  ghost predicate NoneRemoved(old_: Item, new_: Item) {
    forall k | 0 <= k < |old_.members| :: old_.members[k].name in ByName(new_.members)
  }

  ghost predicate AddedHarmless(old_: Item, new_: Item) {
    forall k | 0 <= k < |new_.members| && new_.members[k].name !in ByName(old_.members) ::
      new_.members[k].kind == Method && new_.members[k].default
  }

  ghost predicate Breaks(
    old_: seq<Member>, new_: seq<Member>, before: map<string, nat>, after: map<string, nat>, name: string)
    requires Indexes(before, old_) && Indexes(after, new_)
  {
    name in before && name in after && MemberBreaks(old_[before[name]], new_[after[name]])
  }

  ghost predicate KeptAlike(old_: Item, new_: Item) {
    forall name :: !Breaks(old_.members, new_.members, ByName(old_.members), ByName(new_.members), name)
  }

  ghost predicate OrderKept(old_: Item, new_: Item) {
    HasMethod(new_.members) || Common(old_.members, ByName(new_.members)) == Common(new_.members, ByName(old_.members))
  }

  ghost predicate MembersCompatible(old_: Item, new_: Item) {
    NoneRemoved(old_, new_) && AddedHarmless(old_, new_) && KeptAlike(old_, new_) && OrderKept(old_, new_)
  }

  // ----- the changes of members -----

  /** A member of the old item that the new one does not have. */
  ghost predicate MemberRemoved(old_: Item, new_: Item, c: Change) {
    exists k | 0 <= k < |old_.members| ::
      old_.members[k].name !in ByName(new_.members) && c == RemovedMember(old_, old_.members[k])
  }

  function RemovedMember(old_: Item, member: Member): Change {
    Change(true, Removed, OfMember(old_.key, member.name))
  }

  ghost predicate MemberAdded(old_: Item, new_: Item, c: Change) {
    exists k | 0 <= k < |new_.members| ::
      new_.members[k].name !in ByName(old_.members) && c == AddedMember(new_, new_.members[k])
  }

  /** A method with a default asks nothing of the instances that exist. */
  function AddedMember(new_: Item, member: Member): Change {
    Change(!(member.kind == Method && member.default), Added, OfMember(new_.key, member.name))
  }

  ghost predicate MemberChanged(old_: Item, new_: Item, c: Change) {
    exists name :: ChangedAt(old_, new_, ByName(old_.members), ByName(new_.members), name, c)
  }

  ghost predicate ChangedAt(
    old_: Item, new_: Item, before: map<string, nat>, after: map<string, nat>, name: string, c: Change)
    requires Indexes(before, old_.members) && Indexes(after, new_.members)
  {
    && name in before && name in after
    && Differ(old_.members[before[name]], new_.members[after[name]])
    && c == ChangedMember(new_, old_.members[before[name]], new_.members[after[name]])
  }

  predicate Differ(was: Member, now: Member) {
    SignatureChanged(was, now) || was.default != now.default
  }

  function ChangedMember(new_: Item, was: Member, now: Member): Change {
    Change(MemberBreaks(was, now), Changed, OfMember(new_.key, was.name))
  }

  ghost predicate MembersReordered(old_: Item, new_: Item, c: Change) {
    !OrderKept(old_, new_) && c == Change(true, Changed, OrderOf(new_.key))
  }

  /** All that is reported of the members. */
  ghost predicate MemberReports(old_: Item, new_: Item, c: Change) {
    MemberRemoved(old_, new_, c) || MemberAdded(old_, new_, c) || MemberChanged(old_, new_, c)
    || MembersReordered(old_, new_, c)
  }

  method ReportRemoved(old_: Item, new_: Item) returns (more: seq<Change>)
    ensures forall c :: c in more <==> MemberRemoved(old_, new_, c)
  {
    var after := ByName(new_.members);
    hide ByName;
    more := [];
    for k := 0 to |old_.members|
      invariant forall c :: c in more <==>
                  exists i | 0 <= i < k :: old_.members[i].name !in after && c == RemovedMember(old_, old_.members[i])
    {
      if old_.members[k].name !in after {
        more := more + [RemovedMember(old_, old_.members[k])];
      }
    }
  }

  method ReportAdded(old_: Item, new_: Item) returns (more: seq<Change>)
    ensures forall c :: c in more <==> MemberAdded(old_, new_, c)
  {
    var before := ByName(old_.members);
    hide ByName;
    more := [];
    for k := 0 to |new_.members|
      invariant forall c :: c in more <==>
                  exists i | 0 <= i < k :: new_.members[i].name !in before && c == AddedMember(new_, new_.members[i])
    {
      var member := new_.members[k];
      if member.name in before {
        continue;
      }
      var breaking := match member.kind
        case Field => true
        case Case => true
        case Method => !member.default;
      more := more + [Change(breaking, Added, OfMember(new_.key, member.name))];
    }
  }

  /** The members of both versions, each once: at the place that its name stands for. */
  method ReportChanged(old_: Item, new_: Item) returns (more: seq<Change>)
    ensures forall c :: c in more <==> MemberChanged(old_, new_, c)
  {
    var before, after := ByName(old_.members), ByName(new_.members);
    hide ByName;
    more := [];
    for k := 0 to |old_.members|
      invariant forall c :: c in more
                  <==> exists name :: ChangedAt(old_, new_, before, after, name, c) && before[name] < k
    {
      ghost var had := more;
      var name := old_.members[k].name;
      if before[name] == k && name in after {
        var was, now := old_.members[k], new_.members[after[name]];
        var changed := SignatureChanged(was, now);
        if changed || was.default != now.default {
          var c := Change(changed || (was.default && !now.default), Changed, OfMember(new_.key, name));
          assert ChangedAt(old_, new_, before, after, name, c);
          more := more + [c];
        }
      }
      StepChanged(old_, new_, before, after, k, had, more);
    }
  }

  lemma StepChanged(
    old_: Item, new_: Item, before: map<string, nat>, after: map<string, nat>, k: nat, had: seq<Change>,
    more: seq<Change>)
    requires Indexes(before, old_.members) && Indexes(after, new_.members) && k < |old_.members|
    requires forall c :: c in had <==> exists name :: ChangedAt(old_, new_, before, after, name, c) && before[name] < k
    requires var name := old_.members[k].name;
             if before[name] == k && name in after && Differ(old_.members[k], new_.members[after[name]])
             then more == had + [ChangedMember(new_, old_.members[k], new_.members[after[name]])] else more == had
    ensures forall c :: c in more
              <==> exists name :: ChangedAt(old_, new_, before, after, name, c) && before[name] < k + 1
  {
    var here := old_.members[k].name;
    forall c
      ensures c in more <==> exists name :: ChangedAt(old_, new_, before, after, name, c) && before[name] < k + 1
    {
      if c in more && c !in had {
        assert ChangedAt(old_, new_, before, after, here, c);
      }
      if c in had {
        var name :| ChangedAt(old_, new_, before, after, name, c) && before[name] < k;
        assert ChangedAt(old_, new_, before, after, name, c) && before[name] < k + 1;
      }
      if name :| ChangedAt(old_, new_, before, after, name, c) && before[name] < k + 1 {
        if before[name] == k {
          assert name == here;
        }
      }
    }
  }

  /** Exactly the changes of the members are reported, and one breaks exactly when they are not compatible. */
  method CompareMembers(old_: Item, new_: Item) returns (more: seq<Change>)
    ensures forall c :: c in more <==> MemberReports(old_, new_, c)
    ensures HasBreaking(more) <==> !MembersCompatible(old_, new_)
  {
    var removed := ReportRemoved(old_, new_);
    var added := ReportAdded(old_, new_);
    var changed := ReportChanged(old_, new_);
    hide ByName, MemberRemoved, MemberAdded, MemberChanged, MembersCompatible;
    MembersBreak(old_, new_);
    more := removed + added + changed;
    if !HasMethod(new_.members) {
      if Common(old_.members, ByName(new_.members)) != Common(new_.members, ByName(old_.members)) {
        more := more + [Change(true, Changed, OrderOf(new_.key))];
      }
    }
  }

  lemma MembersBreak(old_: Item, new_: Item)
    ensures (exists c :: MemberReports(old_, new_, c) && c.breaking) <==> !MembersCompatible(old_, new_)
  {
    hide ByName, OrderKept;
    if !NoneRemoved(old_, new_) {
      var k :| 0 <= k < |old_.members| && old_.members[k].name !in ByName(new_.members);
      assert MemberRemoved(old_, new_, RemovedMember(old_, old_.members[k]));
    } else if !AddedHarmless(old_, new_) {
      var k :| 0 <= k < |new_.members| && new_.members[k].name !in ByName(old_.members)
               && !(new_.members[k].kind == Method && new_.members[k].default);
      assert MemberAdded(old_, new_, AddedMember(new_, new_.members[k]));
    } else if !KeptAlike(old_, new_) {
      var x, y := ByName(old_.members), ByName(new_.members);
      var name :| Breaks(old_.members, new_.members, x, y, name);
      var c := ChangedMember(new_, old_.members[x[name]], new_.members[y[name]]);
      assert ChangedAt(old_, new_, x, y, name, c);
    } else if !OrderKept(old_, new_) {
      assert MembersReordered(old_, new_, Change(true, Changed, OrderOf(new_.key)));
    } else {
      forall c | MemberReports(old_, new_, c) ensures !c.breaking {
        if MemberChanged(old_, new_, c) {
          var x, y := ByName(old_.members), ByName(new_.members);
          var name :| ChangedAt(old_, new_, x, y, name, c);
          assert !Breaks(old_.members, new_.members, x, y, name);
        }
      }
    }
  }

  // ----- items -----

  /** What a caller gains: every use that the old declaration allowed is still allowed. The header is the same,
      it is exported and constant if it was, keeps its conventions, its purity, its effect attributes and its
      contract, and asks of its callers no attribute for the functions that they pass. */
  ghost predicate Widened(old_: Item, new_: Item) {
    && old_.header == new_.header
    && (old_.exported ==> new_.exported)
    && (old_.constant ==> new_.constant)
    && old_.borrowingDefaults == new_.borrowingDefaults
    && (old_.pure_.None? || old_.pure_ == new_.pure_)
    && old_.asserts <= new_.asserts
    && !(new_.callbacks && new_.asserts - old_.asserts != {})
    && old_.contract == new_.contract
  }

  ghost predicate ContractsKept(old_: Item, new_: Item) {
    && (forall line | line in old_.contracts && line.EnsuresLine? :: line in new_.contracts)
    && (forall line | line in new_.contracts && line.RequiresLine? :: line in old_.contracts)
  }

  ghost predicate ItemCompatible(old_: Item, new_: Item) {
    && Widened(old_, new_)
    && MembersCompatible(old_, new_)
    && old_.derives <= new_.derives
    && ContractsKept(old_, new_)
  }

  predicate HeaderDiffers(old_: Item, new_: Item) {
    || old_.header != new_.header || old_.exported != new_.exported || old_.constant != new_.constant
    || old_.borrowingDefaults != new_.borrowingDefaults || old_.pure_ != new_.pure_ || old_.asserts != new_.asserts
    || old_.contract != new_.contract
  }

  ghost predicate HeaderReports(old_: Item, new_: Item, c: Change) {
    HeaderDiffers(old_, new_) && c == Change(!Widened(old_, new_), Changed, OfItem(new_.key))
  }

  ghost predicate DeriveReports(old_: Item, new_: Item, c: Change) {
    && c.subject.Derive? && c.subject.key == new_.key
    && var class_ := c.subject.class_;
    || (class_ in old_.derives - new_.derives && c.action == Removed && c.breaking)
    || (class_ in new_.derives - old_.derives && c.action == Added && !c.breaking)
  }

  /** Taking a promise away breaks, and so does a new demand. */
  ghost predicate ContractReports(old_: Item, new_: Item, c: Change) {
    && c.subject.Contract? && c.subject.key == new_.key
    && var line := c.subject.line;
    || (line in old_.contracts - new_.contracts && c.action == Removed && c.breaking == line.EnsuresLine?)
    || (line in new_.contracts - old_.contracts && c.action == Added && c.breaking == line.RequiresLine?)
  }

  function NoteOf(old_: Item, new_: Item): Option<Action> {
    match (old_.deprecated, new_.deprecated)
    case (None, Some(_)) => Some(Deprecated)
    case (Some(_), None) => Some(Undeprecated)
    case _ => if old_.doc != new_.doc then Some(Documented) else None
  }

  ghost predicate NoteReports(old_: Item, new_: Item, c: Change) {
    NoteOf(old_, new_).Some? && c == Change(false, NoteOf(old_, new_).value, OfItem(new_.key))
  }

  /** All that is reported of an item. */
  ghost predicate ItemReports(old_: Item, new_: Item, c: Change) {
    || HeaderReports(old_, new_, c) || MemberReports(old_, new_, c) || DeriveReports(old_, new_, c)
    || ContractReports(old_, new_, c) || NoteReports(old_, new_, c)
  }

  lemma NoneLeft<T>(a: set<T>, b: set<T>)
    ensures a - b == {} <==> a <= b
  {
    if a - b == {} {
      forall x | x in a ensures x in b {
        assert x !in a - b;
      }
    }
  }

  method ReportHeader(old_: Item, new_: Item) returns (more: seq<Change>)
    ensures forall c :: c in more <==> HeaderReports(old_, new_, c)
  {
    more := [];
    if HeaderDiffers(old_, new_) {
      var addedObligation := new_.callbacks && new_.asserts - old_.asserts != {};
      var widened := && old_.header == new_.header
                     && (old_.exported ==> new_.exported)
                     && (old_.constant ==> new_.constant)
                     && old_.borrowingDefaults == new_.borrowingDefaults
                     && (old_.pure_.None? || old_.pure_ == new_.pure_)
                     && old_.asserts - new_.asserts == {}
                     && !addedObligation
                     && old_.contract == new_.contract;
      NoneLeft(old_.asserts, new_.asserts);
      more := [Change(!widened, Changed, OfItem(new_.key))];
    }
  }

  /** One change for each element of a set. */
  method ReportEach<T(!new)>(elements: set<T>, change: T -> Change) returns (more: seq<Change>)
    ensures forall c :: c in more <==> exists x | x in elements :: c == change(x)
  {
    more := [];
    var left := elements;
    while left != {}
      invariant left <= elements
      invariant forall c :: c in more <==> exists x | x in elements && x !in left :: c == change(x)
      decreases left
    {
      var x :| x in left;
      more := more + [change(x)];
      left := left - {x};
    }
  }

  method ReportDerives(old_: Item, new_: Item) returns (more: seq<Change>)
    ensures forall c :: c in more <==> DeriveReports(old_, new_, c)
  {
    var key := new_.key;
    var lost := ReportEach(old_.derives - new_.derives, (x: string) => Change(true, Removed, Derive(key, x)));
    var gained := ReportEach(new_.derives - old_.derives, (x: string) => Change(false, Added, Derive(key, x)));
    more := lost + gained;
  }

  method ReportContracts(old_: Item, new_: Item) returns (more: seq<Change>)
    ensures forall c :: c in more <==> ContractReports(old_, new_, c)
  {
    var key := new_.key;
    var lost := ReportEach(old_.contracts - new_.contracts,
                           (x: ContractLine) => Change(x.EnsuresLine?, Removed, Contract(key, x)));
    var gained := ReportEach(new_.contracts - old_.contracts,
                             (x: ContractLine) => Change(x.RequiresLine?, Added, Contract(key, x)));
    more := lost + gained;
  }

  method CompareItems(old_: Item, new_: Item) returns (more: seq<Change>)
    ensures forall c :: c in more <==> ItemReports(old_, new_, c)
    ensures HasBreaking(more) <==> !ItemCompatible(old_, new_)
  {
    hide HeaderReports, MemberReports, DeriveReports, ContractReports, ItemCompatible;
    ItemBreaks(old_, new_);
    var header := ReportHeader(old_, new_);
    var members := CompareMembers(old_, new_);
    var derives := ReportDerives(old_, new_);
    var contracts := ReportContracts(old_, new_);
    more := header + members + derives + contracts;
    match NoteOf(old_, new_)
    case Some(action) => more := more + [Change(false, action, OfItem(new_.key))];
    case None =>
  }

  /** A breaking change of an item is reported exactly when its versions are not compatible. */
  lemma ItemBreaks(old_: Item, new_: Item)
    ensures (exists c :: ItemReports(old_, new_, c) && c.breaking) <==> !ItemCompatible(old_, new_)
  {
    hide MemberReports, MembersCompatible;
    MembersBreak(old_, new_);
    NoneLeft(old_.derives, new_.derives);
    if !Widened(old_, new_) {
      WidenedSame(old_, new_);
      assert ItemReports(old_, new_, Change(true, Changed, OfItem(new_.key)));
    } else if !MembersCompatible(old_, new_) {
      var c :| MemberReports(old_, new_, c) && c.breaking;
      assert ItemReports(old_, new_, c);
    } else if !(old_.derives <= new_.derives) {
      var x :| x in old_.derives - new_.derives;
      assert ItemReports(old_, new_, Change(true, Removed, Derive(new_.key, x)));
    } else if !ContractsKept(old_, new_) {
      if line :| line in old_.contracts && line.EnsuresLine? && line !in new_.contracts {
        assert ItemReports(old_, new_, Change(true, Removed, Contract(new_.key, line)));
      } else {
        var line :| line in new_.contracts && line.RequiresLine? && line !in old_.contracts;
        assert ItemReports(old_, new_, Change(true, Added, Contract(new_.key, line)));
      }
    }
  }

  lemma WidenedSame(old_: Item, new_: Item)
    ensures HeaderDiffers(old_, new_) || Widened(old_, new_)
  {
    NoneLeft(new_.asserts, old_.asserts);
  }

  // ----- APIs -----

  ghost predicate Compatible(old_: Api, new_: Api) {
    && (old_.namespace.Some? && new_.namespace.Some? ==> old_.namespace == new_.namespace)
    && (forall key | key in old_.items :: key in new_.items && ItemCompatible(old_.items[key], new_.items[key]))
  }

  predicate Moved(old_: Api, new_: Api) {
    old_.namespace.Some? && new_.namespace.Some? && old_.namespace != new_.namespace
  }

  /** What is reported of the items with the key. */
  ghost predicate KeyReports(old_: Api, new_: Api, key: Key, c: Change) {
    if key in old_.items then
      if key in new_.items then ItemReports(old_.items[key], new_.items[key], c)
      else c == Change(true, Removed, OfItem(key))
    else key in new_.items && c == Change(false, Added, OfItem(key))
  }

  /** All that is reported. */
  ghost predicate Reports(old_: Api, new_: Api, c: Change) {
    || (Moved(old_, new_) && c == Change(true, Changed, Namespace))
    || (exists key :: KeyReports(old_, new_, key, c))
  }

  /** Exactly the changes between the APIs are reported, and one of them breaks exactly when the new API is not
      compatible with the old one. Comparing an API with itself reports nothing. */
  method Compare(old_: Api, new_: Api) returns (changes: seq<Change>)
    ensures forall c :: c in changes <==> Reports(old_, new_, c)
    ensures HasBreaking(changes) <==> !Compatible(old_, new_)
    ensures old_ == new_ ==> changes == []
  {
    hide ItemReports, ItemCompatible;
    changes := if Moved(old_, new_) then [Change(true, Changed, Namespace)] else [];
    var left := old_.items.Keys;
    while left != {}
      invariant left <= old_.items.Keys
      invariant forall c :: c in changes <==>
                  (Moved(old_, new_) && c == Change(true, Changed, Namespace))
                  || exists key :: key in old_.items && key !in left && KeyReports(old_, new_, key, c)
      decreases left
    {
      var key :| key in left;
      var more: seq<Change>;
      if key in new_.items {
        more := CompareItems(old_.items[key], new_.items[key]);
      } else {
        more := [Change(true, Removed, OfItem(key))];
      }
      assert forall c :: c in more <==> KeyReports(old_, new_, key, c);
      changes := changes + more;
      left := left - {key};
    }
    var added := ReportEach(new_.items.Keys - old_.items.Keys, (key: Key) => Change(false, Added, OfItem(key)));
    AddedReports(old_, new_, added);
    changes := changes + added;
    ApiBreaks(old_, new_);
    if old_ == new_ && changes != [] {
      assert changes[0] in changes;
      SameReportsNothing(old_, changes[0]);
    }
  }

  lemma AddedReports(old_: Api, new_: Api, added: seq<Change>)
    requires forall c :: c in added
               <==> exists key | key in new_.items.Keys - old_.items.Keys :: c == Change(false, Added, OfItem(key))
    ensures forall c :: c in added <==> exists key :: key !in old_.items && KeyReports(old_, new_, key, c)
  {
    forall c ensures c in added <==> exists key :: key !in old_.items && KeyReports(old_, new_, key, c) {
      if c in added {
        var key :| key in new_.items.Keys - old_.items.Keys && c == Change(false, Added, OfItem(key));
        assert KeyReports(old_, new_, key, c);
      }
      if key :| key !in old_.items && KeyReports(old_, new_, key, c) {
        assert key in new_.items.Keys - old_.items.Keys;
      }
    }
  }

  lemma ApiBreaks(old_: Api, new_: Api)
    ensures (exists c :: Reports(old_, new_, c) && c.breaking) <==> !Compatible(old_, new_)
  {
    hide ItemReports, ItemCompatible;
    forall key | key in old_.items && key in new_.items
      ensures (exists c :: ItemReports(old_.items[key], new_.items[key], c) && c.breaking)
              <==> !ItemCompatible(old_.items[key], new_.items[key])
    {
      ItemBreaks(old_.items[key], new_.items[key]);
    }
    if Moved(old_, new_) {
      assert Reports(old_, new_, Change(true, Changed, Namespace));
    } else if key :| key in old_.items && !(key in new_.items && ItemCompatible(old_.items[key], new_.items[key])) {
      if key in new_.items {
        var c :| ItemReports(old_.items[key], new_.items[key], c) && c.breaking;
        assert KeyReports(old_, new_, key, c);
      } else {
        assert KeyReports(old_, new_, key, Change(true, Removed, OfItem(key)));
      }
    }
  }

  lemma SameReportsNothing(api: Api, c: Change)
    ensures !Reports(api, api, c)
  {
    forall key ensures !KeyReports(api, api, key, c) {
      if key in api.items { SameItem(api.items[key], c); }
    }
  }

  lemma SameItem(item: Item, c: Change)
    ensures !ItemReports(item, item, c)
  {
    hide ByName, Common;
    forall k | 0 <= k < |item.members|
      ensures item.members[k].name in ByName(item.members)
    {
      IndexedAt(item.members, k);
    }
    forall name ensures !ChangedAt(item, item, ByName(item.members), ByName(item.members), name, c) {}
  }

  // ----- compatibility is a preorder -----

  /** Records have fields, unions have cases, and classes have methods. */
  function KindOfMembers(kind: string): Option<MemberKind> {
    if kind == "record" then Some(Field)
    else if kind == "union" then Some(Case)
    else if kind == "class" then Some(Method)
    else None
  }

  ghost predicate UniqueNames(members: seq<Member>) {
    forall i, j | 0 <= i < j < |members| :: members[i].name != members[j].name
  }

  ghost predicate Declared(item: Item) {
    && UniqueNames(item.members)
    && (forall k | 0 <= k < |item.members| :: KindOfMembers(item.key.kind) == Some(item.members[k].kind))
  }

  ghost predicate WellFormed(api: Api) {
    forall key | key in api.items :: api.items[key].key == key && Declared(api.items[key])
  }

  function Names(members: seq<Member>): (r: seq<string>)
    ensures |r| == |members| && forall k | 0 <= k < |members| :: r[k] == members[k].name
  {
    seq(|members|, k requires 0 <= k < |members| => members[k].name)
  }

  lemma {:induction false} CommonAll(members: seq<Member>, other: map<string, nat>)
    requires forall k | 0 <= k < |members| :: members[k].name in other
    ensures Common(members, other) == Names(members)
  {
    if members != [] {
      CommonAll(members[..|members| - 1], other);
    }
  }

  /** The member of a name. */
  lemma NamedAt(members: seq<Member>, k: nat)
    requires UniqueNames(members) && k < |members|
    ensures members[k].name in ByName(members) && ByName(members)[members[k].name] == k
  {
    var index := ByName(members);
    assert members[index[members[k].name]].name == members[k].name;
  }

  lemma NamedIs(members: seq<Member>, name: string)
    requires name in ByName(members)
    ensures ByName(members)[name] < |members| && members[ByName(members)[name]].name == name
  {
  }

  lemma RemovedTransitive(a: Item, b: Item, c: Item)
    requires NoneRemoved(a, b) && NoneRemoved(b, c)
    ensures NoneRemoved(a, c)
  {
    hide ByName;
    forall k | 0 <= k < |a.members| ensures a.members[k].name in ByName(c.members) {
      NamedIs(b.members, a.members[k].name);
    }
  }

  lemma BreaksTransitive(x: Member, y: Member, z: Member)
    requires !MemberBreaks(x, y) && !MemberBreaks(y, z)
    ensures !MemberBreaks(x, z)
  {
  }

  lemma KeptTransitive(a: Item, b: Item, c: Item)
    requires NoneRemoved(a, b) && KeptAlike(a, b) && KeptAlike(b, c)
    ensures KeptAlike(a, c)
  {
    hide ByName, MemberBreaks;
    var x, y, z := ByName(a.members), ByName(b.members), ByName(c.members);
    forall name ensures !Breaks(a.members, c.members, x, z, name) {
      if name in x && name in z {
        NamedIs(a.members, name);
        assert a.members[x[name]].name in y;
        assert !Breaks(a.members, b.members, x, y, name) && !Breaks(b.members, c.members, y, z, name);
        BreaksTransitive(a.members[x[name]], b.members[y[name]], c.members[z[name]]);
      }
    }
  }

  lemma AddedTransitive(a: Item, b: Item, c: Item)
    requires Declared(b) && Declared(c) && b.key == c.key
    requires AddedHarmless(a, b) && AddedHarmless(b, c) && KeptAlike(b, c)
    ensures AddedHarmless(a, c)
  {
    hide ByName;
    forall k | 0 <= k < |c.members| && c.members[k].name !in ByName(a.members)
      ensures c.members[k].kind == Method && c.members[k].default
    {
      var name := c.members[k].name;
      if name in ByName(b.members) {
        NamedAt(c.members, k);
        NamedIs(b.members, name);
        assert !Breaks(b.members, c.members, ByName(b.members), ByName(c.members), name);
        var y := b.members[ByName(b.members)[name]];
        assert y.kind == Method && y.default;
      }
    }
  }

  /** Without methods, nothing can be added, so the names and their order are the same. */
  lemma SameOrder(a: Item, b: Item)
    requires Declared(a) && Declared(b) && a.key == b.key && MembersCompatible(a, b)
             && KindOfMembers(b.key.kind) != Some(Method)
    ensures Names(a.members) == Names(b.members)
  {
    hide ByName;
    assert !HasMethod(b.members);
    CommonAll(a.members, ByName(b.members));
    CommonAll(b.members, ByName(a.members));
  }

  lemma OrderTransitive(a: Item, b: Item, c: Item)
    requires Declared(a) && Declared(b) && Declared(c) && a.key == b.key == c.key
    requires MembersCompatible(a, b) && MembersCompatible(b, c) && NoneRemoved(a, c)
    ensures OrderKept(a, c)
  {
    hide ByName;
    if !HasMethod(c.members) {
      if KindOfMembers(c.key.kind) == Some(Method) {
        assert c.members == [];
        NoMembers(c.members);
        assert a.members == [];
      } else {
        SameOrder(a, b);
        SameOrder(b, c);
        NamesIndexed(a.members, c.members);
        CommonAll(a.members, ByName(c.members));
        CommonAll(c.members, ByName(a.members));
      }
    }
  }

  lemma NoMembers(members: seq<Member>)
    requires members == []
    ensures ByName(members) == map[]
  {
  }

  lemma NamesIndexed(a: seq<Member>, c: seq<Member>)
    requires Names(a) == Names(c)
    ensures forall k | 0 <= k < |c| :: c[k].name in ByName(a)
    ensures forall k | 0 <= k < |a| :: a[k].name in ByName(c)
  {
    hide ByName;
    forall k | 0 <= k < |c| ensures c[k].name in ByName(a) && a[k].name in ByName(c) {
      assert Names(a)[k] == Names(c)[k];
      IndexedAt(a, k);
      IndexedAt(c, k);
    }
  }

  lemma IndexedAt(members: seq<Member>, k: nat)
    requires k < |members|
    ensures members[k].name in ByName(members)
  {
  }

  lemma MembersTransitive(a: Item, b: Item, c: Item)
    requires Declared(a) && Declared(b) && Declared(c) && a.key == b.key == c.key
    requires MembersCompatible(a, b) && MembersCompatible(b, c)
    ensures MembersCompatible(a, c)
  {
    hide ByName, KeptAlike, AddedHarmless, OrderKept, NoneRemoved;
    RemovedTransitive(a, b, c);
    KeptTransitive(a, b, c);
    AddedTransitive(a, b, c);
    OrderTransitive(a, b, c);
  }

  /** The callers of `c` can pass functions, and `b` has attributes that `a` does not have. */
  predicate Burdened(a: Item, b: Item, c: Item) {
    c.callbacks && b.asserts != a.asserts
  }

  lemma WidenedTwice(a: Item, b: Item, c: Item)
    requires Widened(a, b) && Widened(b, c)
    ensures Widened(a, c) <==> !Burdened(a, b, c)
  {
    NoneLeft(c.asserts, b.asserts);
    NoneLeft(c.asserts, a.asserts);
  }

  lemma ItemTwice(a: Item, b: Item, c: Item)
    requires Declared(a) && Declared(b) && Declared(c) && a.key == b.key == c.key
    requires ItemCompatible(a, b) && ItemCompatible(b, c)
    ensures ItemCompatible(a, c) <==> !Burdened(a, b, c)
  {
    hide MembersCompatible, Widened, Declared, Burdened;
    MembersTransitive(a, b, c);
    WidenedTwice(a, b, c);
  }

  /** A version without a namespace stands between two that have different ones. */
  predicate Forgotten(a: Api, b: Api, c: Api) {
    Moved(a, c) && b.namespace.None?
  }

  /** Where neither of two steps breaks anything, both together break exactly if the namespace was forgotten
      in between, or some item got attributes in the first step and, at the end, callers who pass functions. */
  lemma TransitiveExactly(a: Api, b: Api, c: Api)
    requires WellFormed(a) && WellFormed(b) && WellFormed(c)
    requires Compatible(a, b) && Compatible(b, c)
    ensures Compatible(a, c)
            <==> !Forgotten(a, b, c) && forall key | key in a.items ::
              !Burdened(a.items[key], b.items[key], c.items[key])
  {
    hide ItemCompatible, Declared, Burdened;
    forall key | key in a.items
      ensures key in c.items
      ensures ItemCompatible(a.items[key], c.items[key]) <==> !Burdened(a.items[key], b.items[key], c.items[key])
    {
      ItemTwice(a.items[key], b.items[key], c.items[key]);
    }
  }

  /** The flag of every item is the same in both versions. */
  ghost predicate SameFlags(a: Api, b: Api) {
    forall key | key in a.items && key in b.items :: a.items[key].callbacks == b.items[key].callbacks
  }

  /** If neither step breaks anything, both together do not, unless a namespace or a flag comes and goes. */
  lemma CompatibleTransitive(a: Api, b: Api, c: Api)
    requires WellFormed(a) && WellFormed(b) && WellFormed(c)
    requires b.namespace.Some? && SameFlags(b, c)
    requires Compatible(a, b) && Compatible(b, c)
    ensures Compatible(a, c)
  {
    hide MembersCompatible, ContractsKept, Declared;
    forall key | key in a.items ensures !Burdened(a.items[key], b.items[key], c.items[key]) {
      assert ItemCompatible(a.items[key], b.items[key]);
      NoneLeft(b.items[key].asserts, a.items[key].asserts);
    }
    TransitiveExactly(a, b, c);
  }

  lemma CompatibleReflexive(a: Api)
    ensures Compatible(a, a)
  {
    forall key | key in a.items ensures ItemCompatible(a.items[key], a.items[key]) {
      ItemReflexive(a.items[key]);
    }
  }

  lemma ItemReflexive(item: Item)
    ensures ItemCompatible(item, item)
  {
    hide ByName;
    forall k | 0 <= k < |item.members|
      ensures item.members[k].name in ByName(item.members)
    {
      IndexedAt(item.members, k);
    }
  }

  // ----- what the conditions are for -----

  /** An API without a namespace between two that differ hides the change. */
  lemma NamespaceMatters()
    ensures var a, b, c := Api(Some("A"), map[]), Api(None, map[]), Api(Some("B"), map[]);
            Compatible(a, b) && Compatible(b, c) && !Compatible(a, c)
  {
  }
}
