/** Per-class field metadata (`ClassInfo`): the name -> field table of a class, merged
    with its superclass's, its sorted name list, and the two per-mode caches.

    Classes are entries of a class table. A class names its optional superclass, says
    whether it is an enum, and lists its declared fields in declaration order. The
    table is well formed when every superclass is in the table and has a smaller id
    than its subclass, which makes the superclass chain acyclic. */
module ClassInfo {
  import opened Wrappers

  type ClassId = nat

  /** A field name; `None` is Java's `null` name. */
  type Name = Option<string>

  /** The reflective field: the declaring class and the field's position in it. */
  datatype FieldId = FieldId(owner: ClassId, index: nat)

  /** A declared field as `FieldInfo.of` sees it: `eligible` is false where it returns
      null (static or otherwise excluded fields), `name` is `FieldInfo.getName()`. */
  datatype DeclaredField = DeclaredField(eligible: bool, name: Name)

  datatype ClassDecl = ClassDecl(superclass: Option<ClassId>, isEnum: bool, fields: seq<DeclaredField>)

  type ClassTable = map<ClassId, ClassDecl>

  predicate WellFormed(table: ClassTable) {
    forall c :: c in table && table[c].superclass.Some? ==>
      table[c].superclass.value in table && table[c].superclass.value < c
  }

  datatype FieldInfo = FieldInfo(field: FieldId, name: Name)

  /** Why construction fails (`IllegalArgumentException`, or the
      `NullPointerException` of lower-casing a null name). */
  datatype Error =
    | EnumIgnoreCase(clazz: ClassId)
    | DuplicateName(clazz: ClassId, name: Name)
    | NullName(clazz: ClassId)

  /** The computed content of a `ClassInfo`: the name -> field map and the names. */
  datatype Info = Info(fields: map<Name, FieldInfo>, names: seq<Name>)

  const Empty := Info(map[], [])

  // ---------------------------------------------------------------------------
  // The name order: null first, then `String.compareTo`

  predicate StringLess(a: string, b: string)
    decreases |a|
  {
    if a == [] then b != []
    else if b == [] then false
    else if a[0] != b[0] then a[0] < b[0]
    else StringLess(a[1..], b[1..])
  }

  predicate NameLess(a: Name, b: Name) {
    match (a, b)
    case (None, Some(_)) => true
    case (Some(x), Some(y)) => StringLess(x, y)
    case _ => false
  }

  lemma {:induction false} StringLessIrreflexive(a: string)
    ensures !StringLess(a, a)
    decreases |a|
  {
    if a != [] {
      StringLessIrreflexive(a[1..]);
    }
  }

  lemma {:induction false} StringLessTransitive(a: string, b: string, c: string)
    requires StringLess(a, b) && StringLess(b, c)
    ensures StringLess(a, c)
    decreases |a|
  {
    if a != [] && a[0] == b[0] && b[0] == c[0] {
      StringLessTransitive(a[1..], b[1..], c[1..]);
    }
  }

  lemma {:induction false} StringLessTotal(a: string, b: string)
    ensures a == b || StringLess(a, b) || StringLess(b, a)
    decreases |a|
  {
    if a != [] && b != [] && a[0] == b[0] {
      StringLessTotal(a[1..], b[1..]);
      if a[1..] == b[1..] {
        assert a == [a[0]] + a[1..] && b == [b[0]] + b[1..];
      }
    }
  }

  /** The comparator of the name set is a strict total order. */
  lemma NameLessStrictTotal(a: Name, b: Name, c: Name)
    ensures !NameLess(a, a)
    ensures NameLess(a, b) && NameLess(b, c) ==> NameLess(a, c)
    ensures a == b || NameLess(a, b) || NameLess(b, a)
  {
    if a.Some? {
      StringLessIrreflexive(a.value);
      if b.Some? {
        StringLessTotal(a.value, b.value);
        if c.Some? && NameLess(a, b) && NameLess(b, c) {
          StringLessTransitive(a.value, b.value, c.value);
        }
      }
    }
  }

  /** Strictly increasing under the name order: sorted and free of duplicates. */
  predicate Sorted(names: seq<Name>) {
    forall i, j :: 0 <= i < j < |names| ==> NameLess(names[i], names[j])
  }

  /** `TreeSet.add` of a name not yet present, on the sorted sequence of its elements. */
  function Insert(names: seq<Name>, x: Name): (r: seq<Name>)
    requires Sorted(names) && x !in names
    ensures Sorted(r)
    ensures |r| == |names| + 1
    ensures forall y :: y in r <==> y in names || y == x
  {
    if names == [] then [x]
    else if NameLess(x, names[0]) then
      assert forall j :: 0 < j < |names| ==> NameLess(x, names[j]) by {
        forall j | 0 < j < |names| ensures NameLess(x, names[j]) {
          NameLessStrictTotal(x, names[0], names[j]);
        }
      }
      [x] + names
    else
      NameLessStrictTotal(names[0], x, x);
      var rest := Insert(names[1..], x);
      assert forall y :: y in rest ==> NameLess(names[0], y);
      [names[0]] + rest
  }

  // ---------------------------------------------------------------------------
  // Lower-casing (ASCII letters only)

  function LowerChar(ch: char): char {
    if 'A' <= ch <= 'Z' then (ch as int + 32) as char else ch
  }

  function Lower(s: string): (r: string)
    ensures |r| == |s|
  {
    if s == [] then [] else [LowerChar(s[0])] + Lower(s[1..])
  }

  lemma {:induction false} LowerIdempotent(s: string)
    ensures Lower(Lower(s)) == Lower(s)
  {
    if s != [] {
      LowerIdempotent(s[1..]);
      assert Lower(s)[1..] == Lower(s[1..]);
    }
  }

  // ---------------------------------------------------------------------------
  // Construction, as a function of the class table

  /** The map key of a declared field: its name, lower-cased in ignore-case mode. */
  function FieldKey(c: ClassId, f: DeclaredField, ignoreCase: bool): Result<Name, Error> {
    if !ignoreCase then Success(f.name)
    else if f.name.None? then Failure(NullName(c))
    else Success(Some(Lower(f.name.value)))
  }

  /** The invariant of a `ClassInfo`: the names are sorted and are exactly the keys. */
  ghost predicate Consistent(info: Info) {
    Sorted(info.names) && forall n :: n in info.names <==> n in info.fields
  }

  /** One turn of the loop over declared fields. */
  function AddField(acc: Info, c: ClassId, i: nat, f: DeclaredField, ignoreCase: bool): (r: Result<Info, Error>)
    requires Consistent(acc)
    ensures r.Success? ==> Consistent(r.value)
  {
    if !f.eligible then Success(acc)
    else
      match FieldKey(c, f, ignoreCase)
      case Failure(e) => Failure(e)
      case Success(k) =>
        if k in acc.fields then Failure(DuplicateName(c, k))
        else Success(Info(acc.fields[k := FieldInfo(FieldId(c, i), f.name)], Insert(acc.names, k)))
  }

  /** The loop over declared fields from index `i` on. */
  function AddFields(acc: Info, c: ClassId, fields: seq<DeclaredField>, i: nat, ignoreCase: bool): (r: Result<Info, Error>)
    requires Consistent(acc) && i <= |fields|
    ensures r.Success? ==> Consistent(r.value)
    decreases |fields| - i
  {
    if i == |fields| then Success(acc)
    else
      match AddField(acc, c, i, fields[i], ignoreCase)
      case Failure(e) => Failure(e)
      case Success(next) => AddFields(next, c, fields, i + 1, ignoreCase)
  }

  /** What constructing the info of class `c` in the given mode yields. */
  function Build(table: ClassTable, c: ClassId, ignoreCase: bool): (r: Result<Info, Error>)
    requires WellFormed(table) && c in table
    ensures r.Success? ==> Consistent(r.value)
    ensures ignoreCase && table[c].isEnum ==> r == Failure(EnumIgnoreCase(c))
    decreases c
  {
    var decl := table[c];
    if ignoreCase && decl.isEnum then Failure(EnumIgnoreCase(c))
    else if decl.superclass.None? then AddFields(Empty, c, decl.fields, 0, ignoreCase)
    else
      match Build(table, decl.superclass.value, ignoreCase)
      case Failure(e) => Failure(e)
      case Success(inherited) => AddFields(inherited, c, decl.fields, 0, ignoreCase)
  }

  /** The info a class starts from: its superclass's in the same mode, or nothing. */
  function Inherited(table: ClassTable, c: ClassId, ignoreCase: bool): (r: Info)
    requires WellFormed(table) && c in table
    ensures Consistent(r)
  {
    var decl := table[c];
    if decl.superclass.Some? && Build(table, decl.superclass.value, ignoreCase).Success? then
      Build(table, decl.superclass.value, ignoreCase).value
    else Empty
  }

  /** Every eligible field from index `i` on has a key, none of these keys is already
      in `acc`, and no two of them are equal. */
  ghost predicate FreshKeys(acc: Info, c: ClassId, fields: seq<DeclaredField>, i: nat, ignoreCase: bool) {
    && (forall p :: i <= p < |fields| && fields[p].eligible ==>
          FieldKey(c, fields[p], ignoreCase).Success? && FieldKey(c, fields[p], ignoreCase).value !in acc.fields)
    && (forall p, q :: i <= p < q < |fields| && fields[p].eligible && fields[q].eligible ==>
          FieldKey(c, fields[p], ignoreCase) != FieldKey(c, fields[q], ignoreCase))
  }

  /** An ineligible field does not take part in the freshness condition. */
  lemma FreshKeysSkip(acc: Info, c: ClassId, fields: seq<DeclaredField>, i: nat, ignoreCase: bool)
    requires i < |fields| && !fields[i].eligible
    ensures FreshKeys(acc, c, fields, i, ignoreCase) <==> FreshKeys(acc, c, fields, i + 1, ignoreCase)
  {
  }

  /** Recording a fresh key moves it from the later fields' condition into the map. */
  lemma FreshKeysAdd(acc: Info, next: Info, c: ClassId, fields: seq<DeclaredField>, i: nat, ignoreCase: bool)
    requires i < |fields| && fields[i].eligible
    requires FieldKey(c, fields[i], ignoreCase).Success?
    requires FieldKey(c, fields[i], ignoreCase).value !in acc.fields
    requires next.fields.Keys == acc.fields.Keys + {FieldKey(c, fields[i], ignoreCase).value}
    ensures FreshKeys(acc, c, fields, i, ignoreCase) <==> FreshKeys(next, c, fields, i + 1, ignoreCase)
  {
    var key := FieldKey(c, fields[i], ignoreCase);
    if FreshKeys(next, c, fields, i + 1, ignoreCase) {
      forall p, q | i <= p < q < |fields| && fields[p].eligible && fields[q].eligible
        ensures FieldKey(c, fields[p], ignoreCase) != FieldKey(c, fields[q], ignoreCase)
      {
        if p == i {
          assert FieldKey(c, fields[q], ignoreCase).value !in next.fields;
        }
      }
    }
  }

  lemma {:induction false} AddFieldsSucceeds(acc: Info, c: ClassId, fields: seq<DeclaredField>, i: nat, ignoreCase: bool)
    requires Consistent(acc) && i <= |fields|
    ensures AddFields(acc, c, fields, i, ignoreCase).Success? <==> FreshKeys(acc, c, fields, i, ignoreCase)
    decreases |fields| - i
  {
    if i < |fields| {
      var f := fields[i];
      var key := FieldKey(c, f, ignoreCase);
      if !f.eligible {
        FreshKeysSkip(acc, c, fields, i, ignoreCase);
        AddFieldsSucceeds(acc, c, fields, i + 1, ignoreCase);
      } else if key.Success? && key.value !in acc.fields {
        var next := AddField(acc, c, i, f, ignoreCase).value;
        assert next.fields.Keys == acc.fields.Keys + {key.value};
        FreshKeysAdd(acc, next, c, fields, i, ignoreCase);
        AddFieldsSucceeds(next, c, fields, i + 1, ignoreCase);
      }
    }
  }

  lemma {:induction false} AddFieldsKeeps(acc: Info, c: ClassId, fields: seq<DeclaredField>, i: nat, ignoreCase: bool)
    requires Consistent(acc) && i <= |fields|
    requires AddFields(acc, c, fields, i, ignoreCase).Success?
    ensures var out := AddFields(acc, c, fields, i, ignoreCase).value;
      forall k :: k in acc.fields ==> k in out.fields && out.fields[k] == acc.fields[k]
    decreases |fields| - i
  {
    if i < |fields| {
      AddFieldsKeeps(AddField(acc, c, i, fields[i], ignoreCase).value, c, fields, i + 1, ignoreCase);
    }
  }

  lemma {:induction false} AddFieldsRecords(acc: Info, c: ClassId, fields: seq<DeclaredField>, i: nat, ignoreCase: bool, j: nat)
    requires Consistent(acc) && i <= j < |fields| && fields[j].eligible
    requires AddFields(acc, c, fields, i, ignoreCase).Success?
    ensures FieldKey(c, fields[j], ignoreCase).Success?
    ensures var out := AddFields(acc, c, fields, i, ignoreCase).value;
      var k := FieldKey(c, fields[j], ignoreCase).value;
      k in out.fields && out.fields[k] == FieldInfo(FieldId(c, j), fields[j].name)
    decreases |fields| - i
  {
    var next := AddField(acc, c, i, fields[i], ignoreCase).value;
    if i == j {
      AddFieldsKeeps(next, c, fields, i + 1, ignoreCase);
    } else {
      AddFieldsRecords(next, c, fields, i + 1, ignoreCase, j);
    }
  }

  lemma {:induction false} AddFieldsOrigin(acc: Info, c: ClassId, fields: seq<DeclaredField>, i: nat, ignoreCase: bool)
    requires Consistent(acc) && i <= |fields|
    requires AddFields(acc, c, fields, i, ignoreCase).Success?
    ensures var out := AddFields(acc, c, fields, i, ignoreCase).value;
      forall k :: k in out.fields ==>
        k in acc.fields || exists p :: i <= p < |fields| && fields[p].eligible && FieldKey(c, fields[p], ignoreCase) == Success(k)
    decreases |fields| - i
  {
    if i < |fields| {
      AddFieldsOrigin(AddField(acc, c, i, fields[i], ignoreCase).value, c, fields, i + 1, ignoreCase);
    }
  }

  /** Construction succeeds exactly when the mode is allowed for the class, the
      superclass's construction succeeds, and every eligible declared field has a key
      that is neither inherited nor shared with another declared field. */
  lemma BuildSucceeds(table: ClassTable, c: ClassId, ignoreCase: bool)
    requires WellFormed(table) && c in table
    ensures Build(table, c, ignoreCase).Success? <==>
      && !(ignoreCase && table[c].isEnum)
      && (table[c].superclass.Some? ==> Build(table, table[c].superclass.value, ignoreCase).Success?)
      && FreshKeys(Inherited(table, c, ignoreCase), c, table[c].fields, 0, ignoreCase)
  {
    AddFieldsSucceeds(Inherited(table, c, ignoreCase), c, table[c].fields, 0, ignoreCase);
  }

  /** A constructed map holds every inherited entry unchanged, every eligible declared
      field under its key, and nothing else. */
  lemma BuildContents(table: ClassTable, c: ClassId, ignoreCase: bool)
    requires WellFormed(table) && c in table
    requires Build(table, c, ignoreCase).Success?
    ensures var out := Build(table, c, ignoreCase).value;
      var inherited := Inherited(table, c, ignoreCase);
      var fields := table[c].fields;
      && (forall k :: k in inherited.fields ==> k in out.fields && out.fields[k] == inherited.fields[k])
      && (forall j :: 0 <= j < |fields| && fields[j].eligible ==>
            && FieldKey(c, fields[j], ignoreCase).Success?
            && FieldKey(c, fields[j], ignoreCase).value in out.fields
            && out.fields[FieldKey(c, fields[j], ignoreCase).value] == FieldInfo(FieldId(c, j), fields[j].name))
      && (forall k :: k in out.fields ==>
            k in inherited.fields
            || exists j :: 0 <= j < |fields| && fields[j].eligible && FieldKey(c, fields[j], ignoreCase) == Success(k))
  {
    var inherited := Inherited(table, c, ignoreCase);
    var fields := table[c].fields;
    AddFieldsKeeps(inherited, c, fields, 0, ignoreCase);
    AddFieldsOrigin(inherited, c, fields, 0, ignoreCase);
    forall j | 0 <= j < |fields| && fields[j].eligible
      ensures FieldKey(c, fields[j], ignoreCase).Success?
      ensures FieldKey(c, fields[j], ignoreCase).value in Build(table, c, ignoreCase).value.fields
      ensures Build(table, c, ignoreCase).value.fields[FieldKey(c, fields[j], ignoreCase).value] == FieldInfo(FieldId(c, j), fields[j].name)
    {
      AddFieldsRecords(inherited, c, fields, 0, ignoreCase, j);
    }
  }

  /** A subclass's info contains its superclass's info (same mode) unchanged. */
  lemma BuildInherits(table: ClassTable, c: ClassId, ignoreCase: bool)
    requires WellFormed(table) && c in table && table[c].superclass.Some?
    requires Build(table, c, ignoreCase).Success?
    ensures var s := table[c].superclass.value;
      && Build(table, s, ignoreCase).Success?
      && var sup := Build(table, s, ignoreCase).value;
         var out := Build(table, c, ignoreCase).value;
         && (forall k :: k in sup.fields ==> k in out.fields && out.fields[k] == sup.fields[k])
         && (forall n :: n in sup.names ==> n in out.names)
  {
    BuildContents(table, c, ignoreCase);
  }

  /** In ignore-case mode every recorded name is a non-null lower-case string. */
  lemma {:induction false} BuildIgnoreCaseLower(table: ClassTable, c: ClassId)
    requires WellFormed(table) && c in table
    requires Build(table, c, true).Success?
    ensures forall n :: n in Build(table, c, true).value.names ==> n.Some? && Lower(n.value) == n.value
    decreases c
  {
    var out := Build(table, c, true).value;
    var fields := table[c].fields;
    if table[c].superclass.Some? {
      BuildIgnoreCaseLower(table, table[c].superclass.value);
    }
    BuildContents(table, c, true);
    forall n | n in out.names
      ensures n.Some? && Lower(n.value) == n.value
    {
      if n !in Inherited(table, c, true).fields {
        var j :| 0 <= j < |fields| && fields[j].eligible && FieldKey(c, fields[j], true) == Success(n);
        LowerIdempotent(fields[j].name.value);
      }
    }
  }

  // ---------------------------------------------------------------------------
  // The info object

  class ClassInfo {
    const clazz: ClassId
    const ignoreCase: bool
    const nameToFieldInfoMap: map<Name, FieldInfo>
    const names: seq<Name>

    constructor (clazz: ClassId, ignoreCase: bool, info: Info)
      ensures this.clazz == clazz && this.ignoreCase == ignoreCase && Contents() == info
    {
      this.clazz := clazz;
      this.ignoreCase := ignoreCase;
      this.nameToFieldInfoMap := info.fields;
      this.names := info.names;
    }

    function Contents(): Info {
      Info(nameToFieldInfoMap, names)
    }

    /** A query name as looked up: lower-cased in ignore-case mode; null stays null. */
    function Normalize(name: Name): Name {
      if ignoreCase && name.Some? then Some(Lower(name.value)) else name
    }

    function GetFieldInfo(name: Name): (r: Option<FieldInfo>)
      ensures r.Some? ==> Normalize(name) in nameToFieldInfoMap && r.value == nameToFieldInfoMap[Normalize(name)]
      ensures r.None? ==> Normalize(name) !in nameToFieldInfoMap
    {
      var key := Normalize(name);
      if key in nameToFieldInfoMap then Some(nameToFieldInfoMap[key]) else None
    }

    function GetField(name: Name): (r: Option<FieldId>)
      ensures r.None? <==> GetFieldInfo(name).None?
      ensures r.Some? ==> r.value == GetFieldInfo(name).value.field
    {
      var fieldInfo := GetFieldInfo(name);
      if fieldInfo.None? then None else Some(fieldInfo.value.field)
    }
  }

  /** Ignore-case lookup does not depend on the query's casing. */
  lemma LookupIgnoresCase(info: ClassInfo, s: string)
    requires info.ignoreCase
    ensures info.GetFieldInfo(Some(s)) == info.GetFieldInfo(Some(Lower(s)))
  {
    LowerIdempotent(s);
  }

  /** Case-sensitive lookup finds exactly the recorded names. */
  lemma LookupExact(info: ClassInfo, name: Name)
    requires !info.ignoreCase && Consistent(info.Contents())
    ensures info.GetFieldInfo(name).Some? <==> name in info.names
  {
  }

  // ---------------------------------------------------------------------------
  // The registry of the two caches

  /** `k` is a proper superclass of `c`: reached from `c` by following superclass
      links. */
  ghost predicate Ancestor(table: ClassTable, k: ClassId, c: ClassId)
    decreases c
  {
    && c in table
    && table[c].superclass.Some?
    && table[c].superclass.value < c
    && (table[c].superclass.value == k || Ancestor(table, k, table[c].superclass.value))
  }

  /** Every entry of `before` is still in `after`, unchanged. */
  ghost predicate Grows(before: map<ClassId, ClassInfo>, after: map<ClassId, ClassInfo>) {
    forall k :: k in before ==> k in after && after[k] == before[k]
  }

  class Registry {
    const table: ClassTable
    var cache: map<ClassId, ClassInfo>
    var cacheIgnoreCase: map<ClassId, ClassInfo>

    /** A cache holds, for each class, an info object of that class and mode whose
        content is what construction yields. */
    ghost predicate CacheValid(m: map<ClassId, ClassInfo>, ignoreCase: bool) {
      && WellFormed(table)
      && forall c :: c in m ==>
           && c in table
           && m[c].clazz == c
           && m[c].ignoreCase == ignoreCase
           && Build(table, c, ignoreCase) == Success(m[c].Contents())
    }

    ghost predicate Valid()
      reads this
    {
      CacheValid(cache, false) && CacheValid(cacheIgnoreCase, true)
    }

    function CacheOf(ignoreCase: bool): map<ClassId, ClassInfo>
      reads this
    {
      if ignoreCase then cacheIgnoreCase else cache
    }

    constructor (table: ClassTable)
      requires WellFormed(table)
      ensures Valid() && this.table == table
      ensures cache == map[] && cacheIgnoreCase == map[]
    {
      this.table := table;
      cache := map[];
      cacheIgnoreCase := map[];
    }

    /** `ClassInfo.of(Class)`: the case-sensitive info. */
    method Of(underlyingClass: Option<ClassId>) returns (r: Result<ClassInfo?, Error>)
      requires Valid()
      requires underlyingClass.Some? ==> underlyingClass.value in table
      modifies this
      ensures Valid()
      ensures underlyingClass.None? ==> r == Success(null) && cache == old(cache)
      ensures underlyingClass.Some? ==>
        var c := underlyingClass.value;
        && (r.Failure? ==> Build(table, c, false) == Failure(r.error))
        && (r.Success? ==> r.value != null && !r.value.ignoreCase && r.value.clazz == c
                           && Build(table, c, false) == Success(r.value.Contents())
                           && c in cache && cache[c] == r.value)
        && (c in old(cache) ==> r == Success(old(cache)[c]) && cache == old(cache))
      ensures Grows(old(cache), cache)
      ensures cacheIgnoreCase == old(cacheIgnoreCase)
    {
      r := OfMode(underlyingClass, false);
    }

    /** `ClassInfo.of(Class, boolean)`: look the class up in the mode's cache and
        construct and store its info on a miss. */
    method OfMode(underlyingClass: Option<ClassId>, ignoreCase: bool) returns (r: Result<ClassInfo?, Error>)
      requires Valid()
      requires underlyingClass.Some? ==> underlyingClass.value in table
      modifies this
      ensures Valid()
      ensures underlyingClass.None? ==> r == Success(null) && cache == old(cache) && cacheIgnoreCase == old(cacheIgnoreCase)
      ensures underlyingClass.Some? ==>
        var c := underlyingClass.value;
        && (r.Failure? ==> Build(table, c, ignoreCase) == Failure(r.error))
        && (r.Success? ==> r.value != null && r.value.ignoreCase == ignoreCase && r.value.clazz == c
                           && Build(table, c, ignoreCase) == Success(r.value.Contents())
                           && c in CacheOf(ignoreCase) && CacheOf(ignoreCase)[c] == r.value)
        && (c in old(CacheOf(ignoreCase)) ==> r == Success(old(CacheOf(ignoreCase))[c]) && CacheOf(ignoreCase) == old(CacheOf(ignoreCase)))
        && (forall k :: k in CacheOf(ignoreCase) && k !in old(CacheOf(ignoreCase)) ==> k == c || Ancestor(table, k, c))
      ensures Grows(old(CacheOf(ignoreCase)), CacheOf(ignoreCase))
      ensures CacheOf(!ignoreCase) == old(CacheOf(!ignoreCase))
      decreases if underlyingClass.Some? then underlyingClass.value else 0, 1
    {
      if underlyingClass.None? {
        return Success(null);
      }
      var c := underlyingClass.value;
      var m := if ignoreCase then cacheIgnoreCase else cache;
      if c in m {
        return Success(m[c]);
      }
      var built := Construct(c, ignoreCase);
      if built.Failure? {
        return Failure(built.error);
      }
      if ignoreCase {
        cacheIgnoreCase := cacheIgnoreCase[c := built.value];
      } else {
        cache := cache[c := built.value];
      }
      r := Success(built.value);
    }

    /** The private constructor `ClassInfo(Class, boolean)`: seed from the superclass's
        info in the same mode, then add the eligible declared fields one by one. The
        object is allocated only when construction succeeds. */
    method Construct(c: ClassId, ignoreCase: bool) returns (r: Result<ClassInfo, Error>)
      requires Valid() && c in table
      modifies this
      ensures Valid()
      ensures r.Failure? ==> Build(table, c, ignoreCase) == Failure(r.error)
      ensures r.Success? ==> fresh(r.value) && r.value.clazz == c && r.value.ignoreCase == ignoreCase
                             && Build(table, c, ignoreCase) == Success(r.value.Contents())
      ensures Grows(old(CacheOf(ignoreCase)), CacheOf(ignoreCase))
      ensures forall k :: k in CacheOf(ignoreCase) && k !in old(CacheOf(ignoreCase)) ==> Ancestor(table, k, c)
      ensures CacheOf(!ignoreCase) == old(CacheOf(!ignoreCase))
      decreases c, 0
    {
      var decl := table[c];
      if ignoreCase && decl.isEnum {
        return Failure(EnumIgnoreCase(c));
      }
      var fieldMap: map<Name, FieldInfo> := map[];
      var nameSet: seq<Name> := [];
      if decl.superclass.Some? {
        var inherited := OfMode(decl.superclass, ignoreCase);
        if inherited.Failure? {
          return Failure(inherited.error);
        }
        fieldMap := inherited.value.nameToFieldInfoMap;
        nameSet := inherited.value.names;
      }
      assert AddFields(Info(fieldMap, nameSet), c, decl.fields, 0, ignoreCase) == Build(table, c, ignoreCase);
      var i := 0;
      while i < |decl.fields|
        invariant 0 <= i <= |decl.fields|
        invariant Consistent(Info(fieldMap, nameSet))
        invariant AddFields(Info(fieldMap, nameSet), c, decl.fields, i, ignoreCase) == Build(table, c, ignoreCase)
      {
        var field := decl.fields[i];
        if !field.eligible {
          i := i + 1;
          continue;
        }
        var fieldName := field.name;
        if ignoreCase {
          if fieldName.None? {
            return Failure(NullName(c));
          }
          fieldName := Some(Lower(fieldName.value));
        }
        if fieldName in fieldMap {
          return Failure(DuplicateName(c, fieldName));
        }
        fieldMap := fieldMap[fieldName := FieldInfo(FieldId(c, i), field.name)];
        nameSet := Insert(nameSet, fieldName);
        i := i + 1;
      }
      var info := new ClassInfo(c, ignoreCase, Info(fieldMap, nameSet));
      r := Success(info);
    }
  }
}
