/** Null-aware object helpers (`Objects.equal`, `Objects.firstNonNull`), the
    class-name trimming behind `toStringHelper`, and the `ToStringHelper` builder.
    A Java reference of type `T` is an `Option<T>`; `None` is `null`. */
module Objects {
  import opened Wrappers
  import opened Strings

  datatype Error = NullPointer

  /** The `equals` contract a well-behaved class keeps. */
  ghost predicate EqualsContract<T(!new)>(equals: (T, Option<T>) -> bool) {
    && (forall x :: equals(x, Some(x)))
    && (forall x :: !equals(x, None))
    && (forall x, y :: equals(x, Some(y)) == equals(y, Some(x)))
  }

  /** `Objects.equal(a, b)`: `==` on options stands for reference identity and
      `equals(x, b)` for `x.equals(b)`. */
  function Equal<T(==)>(a: Option<T>, b: Option<T>, equals: (T, Option<T>) -> bool): (r: bool)
    ensures a == b ==> r
    ensures a.None? && b.Some? ==> !r
    ensures a.Some? && a != b ==> (r <==> equals(a.value, b))
  {
    a == b || (a.Some? && equals(a.value, b))
  }

  /** Under the `equals` contract, `Equal` is symmetric. */
  lemma EqualSymmetric<T(!new)>(a: Option<T>, b: Option<T>, equals: (T, Option<T>) -> bool)
    requires EqualsContract(equals)
    ensures Equal(a, b, equals) == Equal(b, a, equals)
  {
    if a.Some? && b.Some? {
      assert equals(a.value, Some(b.value)) == equals(b.value, Some(a.value));
    } else if a.Some? {
      assert !equals(a.value, None);
    } else if b.Some? {
      assert !equals(b.value, None);
    }
  }

  /** `Objects.firstNonNull`: the first non-null argument, or a
      `NullPointerException` when both are null. */
  function FirstNonNull<T>(first: Option<T>, second: Option<T>): (r: Result<T, Error>)
    ensures r.Success? <==> first.Some? || second.Some?
    ensures r.Success? ==> Some(r.value) == first || (first.None? && Some(r.value) == second)
    ensures r.Failure? ==> r.error == NullPointer
  {
    if first.Some? then Success(first.value)
    else if second.Some? then Success(second.value)
    else Failure(NullPointer)
  }

  // ---------------------------------------------------------------------------
  // Class-name trimming

  predicate IsDigit(ch: char) {
    '0' <= ch <= '9'
  }

  /** `s` without its leading run of decimal digits. */
  function DropDigits(s: string): (r: string)
    ensures |r| <= |s| && r == s[|s| - |r|..]
    ensures r == [] || !IsDigit(r[0])
    ensures forall i :: 0 <= i < |s| - |r| ==> IsDigit(s[i])
  {
    if s != [] && IsDigit(s[0]) then DropDigits(s[1..]) else s
  }

  /** `name.replaceAll("\\$[0-9]+", "\\$")`: every '$' followed by digits loses the
      digits. */
  function CollapseAnonymous(name: string): (r: string)
    ensures |r| <= |name|
    ensures name != [] ==> r != [] && r[0] == name[0]
    ensures '$' in r <==> '$' in name
    ensures forall i :: 0 <= i < |r| - 1 && r[i] == '$' ==> !IsDigit(r[i + 1])
    decreases |name|
  {
    if name == [] then []
    else if name[0] == '$' then
      var rest := DropDigits(name[1..]);
      assert '$' !in name[1..][..|name[1..]| - |rest|];
      "$" + CollapseAnonymous(rest)
    else [name[0]] + CollapseAnonymous(name[1..])
  }

  /** The part of `name` after its last '$', or after its last '.' when it has no
      '$'. */
  function AfterLastSeparator(name: string): (r: string)
    ensures |r| <= |name| && r == name[|name| - |r|..]
    ensures '$' !in r
    ensures '$' in name ==> |r| < |name| && name[|name| - |r| - 1] == '$'
    ensures '$' !in name ==> '.' !in r && ('.' in name ==> |r| < |name| && name[|name| - |r| - 1] == '.')
    ensures '$' !in name && '.' !in name ==> r == name
  {
    var dollar := LastIndexOf(name, '$');
    if dollar != -1 then
      NotAfterLast(name, '$');
      name[dollar + 1..]
    else
      var dot := LastIndexOf(name, '.');
      NotAfterLast(name, '.');
      NotInSuffix(name, '$', dot + 1);
      name[dot + 1..]
  }

  /** `Objects.simpleName`: the part of the collapsed class name after its last '$',
      or after its last '.' when it has no '$'. */
  function SimpleName(className: string): (r: string)
    ensures var name := CollapseAnonymous(className);
      && |r| <= |name| && r == name[|name| - |r|..]
      && '$' !in r
      && ('$' in name ==> |r| < |name| && name[|name| - |r| - 1] == '$')
      && ('$' !in name ==> '.' !in r && ('.' in name ==> |r| < |name| && name[|name| - |r| - 1] == '.'))
      && ('$' !in name && '.' !in name ==> r == name)
  {
    AfterLastSeparator(CollapseAnonymous(className))
  }

  /** Without '$' in it, a name is left as it is by the collapse. */
  lemma {:induction false} CollapseWithoutDollar(name: string)
    requires '$' !in name
    ensures CollapseAnonymous(name) == name
    decreases |name|
  {
    if name != [] {
      CollapseWithoutDollar(name[1..]);
    }
  }

  /** A leading run of digits is dropped exactly. */
  lemma {:induction false} DropDigitsOf(d: string, y: string)
    requires forall i :: 0 <= i < |d| ==> IsDigit(d[i])
    requires y == [] || !IsDigit(y[0])
    ensures DropDigits(d + y) == y
    decreases |d|
  {
    if d == [] {
      assert d + y == y;
    } else {
      assert (d + y)[0] == d[0];
      assert (d + y)[1..] == d[1..] + y;
      DropDigitsOf(d[1..], y);
    }
  }

  /** A character other than '$' is kept by the collapse. */
  lemma CollapseCons(ch: char, rest: string)
    requires ch != '$'
    ensures CollapseAnonymous([ch] + rest) == [ch] + CollapseAnonymous(rest)
  {
    assert ([ch] + rest)[1..] == rest;
  }

  /** A '$' is kept and the digits after it are dropped. */
  lemma CollapseDollar(rest: string)
    ensures CollapseAnonymous("$" + rest) == "$" + CollapseAnonymous(DropDigits(rest))
  {
    assert ("$" + rest)[1..] == rest;
  }

  /** Regrouping a concatenation of three strings. */
  lemma Regroup(a: string, b: string, c: string)
    ensures a + b + c == a + (b + c)
  {
  }

  /** A prefix without '$' is kept by the collapse. */
  lemma {:induction false} CollapsePrefix(x: string, t: string)
    requires '$' !in x
    ensures CollapseAnonymous(x + t) == x + CollapseAnonymous(t)
    decreases |x|
  {
    if x == [] {
      assert x + t == t;
    } else {
      var c, u := x[0], x[1..] + t;
      assert c in x;
      assert x + t == [c] + u;
      CollapseCons(c, u);
      CollapsePrefix(x[1..], t);
      var ct := CollapseAnonymous(t);
      assert CollapseAnonymous(x + t) == [c] + CollapseAnonymous(u);
      assert [c] + CollapseAnonymous(u) == [c] + (x[1..] + ct);
      assert [c] + (x[1..] + ct) == x + ct;
    }
  }

  /** The collapse replaces the first "$digits" by "$", keeps the text before it and
      continues after the digits. With `CollapseWithoutDollar` this fixes the
      collapse on every name. */
  lemma CollapseDollarDigits(x: string, d: string, y: string)
    requires '$' !in x
    requires forall i :: 0 <= i < |d| ==> IsDigit(d[i])
    requires y == [] || !IsDigit(y[0])
    ensures CollapseAnonymous(x + "$" + d + y) == x + "$" + CollapseAnonymous(y)
  {
    var t := "$" + (d + y);
    Regroup(x + "$", d, y);
    Regroup(x, "$", d + y);
    CollapsePrefix(x, t);
    CollapseDollar(d + y);
    DropDigitsOf(d, y);
    var cy := CollapseAnonymous(y);
    assert CollapseAnonymous(x + "$" + d + y) == x + ("$" + cy);
    Regroup(x, "$", cy);
  }

  /** The simple name of an anonymous or local class `Outer$<digits>Inner` is
      `Inner`. */
  lemma SimpleNameInner(outer: string, digits: string, inner: string)
    requires '$' !in outer && '$' !in inner
    requires forall i :: 0 <= i < |digits| ==> IsDigit(digits[i])
    requires inner == [] || !IsDigit(inner[0])
    ensures SimpleName(outer + "$" + digits + inner) == inner
  {
    CollapseDollarDigits(outer, digits, inner);
    CollapseWithoutDollar(inner);
    LastIndexOfAfter(outer, '$', inner);
    var name := outer + "$" + inner;
    assert name[|outer| + 1..] == inner;
  }

  /** For example, the first anonymous class of `pkg.Outer` is shown as `Inner`. */
  lemma SimpleNameAnonymousExample()
    ensures SimpleName("pkg.Outer$1Inner") == "Inner"
  {
    SimpleNameInner("pkg.Outer", "1", "Inner");
    assert "pkg.Outer" + "$" + "1" + "Inner" == "pkg.Outer$1Inner";
  }

  /** A top-level class's simple name is the part of its name after the last '.'. */
  lemma SimpleNameTopLevel(className: string)
    requires '$' !in className
    ensures var r := SimpleName(className);
      && r == className[|className| - |r|..]
      && '.' !in r
      && ('.' in className ==> className[|className| - |r| - 1] == '.')
      && ('.' !in className ==> r == className)
  {
    assert SimpleName(className) == AfterLastSeparator(className) by {
      CollapseWithoutDollar(className);
    }
  }

  // ---------------------------------------------------------------------------
  // Rendering values

  function DigitChar(d: nat): (c: char)
    requires d < 10
    ensures IsDigit(c) && c as int - '0' as int == d
  {
    "0123456789"[d]
  }

  /** Decimal digits of `n`, most significant first, without leading zeros. */
  function NatToString(n: nat): (r: string)
    ensures r != []
    ensures forall i :: 0 <= i < |r| ==> IsDigit(r[i])
    ensures |r| == 1 <==> n < 10
    ensures |r| > 1 ==> r[0] != '0'
    ensures r[0] == '0' <==> n == 0
    decreases n
  {
    if n < 10 then [DigitChar(n)] else NatToString(n / 10) + [DigitChar(n % 10)]
  }

  function ParseNat(s: string): nat
    requires forall i :: 0 <= i < |s| ==> IsDigit(s[i])
  {
    if s == [] then 0
    else
      assert IsDigit(s[|s| - 1]);
      10 * ParseNat(s[..|s| - 1]) + (s[|s| - 1] as int - '0' as int)
  }

  /** Decimal rendering is read back unchanged. */
  lemma {:induction false} NatToStringRoundTrip(n: nat)
    ensures ParseNat(NatToString(n)) == n
    decreases n
  {
    var s := NatToString(n);
    if n >= 10 {
      NatToStringRoundTrip(n / 10);
      assert s[..|s| - 1] == NatToString(n / 10);
    }
  }

  /** `StringBuilder.append(int)` and `append(long)`. */
  function IntToString(i: int): string {
    if i < 0 then "-" + NatToString(-i) else NatToString(i)
  }

  /** A primitive argument of `add`/`addValue` (the float and double overloads are
      not modelled). */
  datatype Primitive =
    | BoolValue(b: bool)
    | CharValue(c: char)
    | IntValue(i: int)
    | LongValue(l: int)

  function PrimitiveString(p: Primitive): string {
    match p
    case BoolValue(b) => if b then "true" else "false"
    case CharValue(c) => [c]
    case IntValue(i) => IntToString(i)
    case LongValue(l) => IntToString(l)
  }

  /** `StringBuilder.append(Object)`: the object's `toString()`, or "null". An object
      is given here by the string its `toString()` returns. */
  function ObjectString(value: Option<string>): string {
    if value.None? then "null" else value.value
  }

  // ---------------------------------------------------------------------------
  // ToStringHelper

  /** One added entry: its rendered text and whether its value was null. */
  datatype ValueHolder = ValueHolder(text: string, isNull: bool)

  /** The texts `toString` emits, in order: all of them, or only the non-null ones
      when null values are omitted. */
  function Shown(holders: seq<ValueHolder>, omitNullValues: bool): seq<string> {
    if holders == [] then []
    else
      var last := holders[|holders| - 1];
      Shown(holders[..|holders| - 1], omitNullValues) + (if omitNullValues && last.isNull then [] else [last.text])
  }

  /** The string `toString` returns. */
  function Render(className: string, holders: seq<ValueHolder>, omitNullValues: bool): string {
    className + "{" + Join(Shown(holders, omitNullValues), ", ") + "}"
  }

  /** The holders whose value was not null, in order. */
  function NonNull(holders: seq<ValueHolder>): (r: seq<ValueHolder>)
    ensures forall i :: 0 <= i < |r| ==> !r[i].isNull
  {
    if holders == [] then []
    else if holders[0].isNull then NonNull(holders[1..])
    else [holders[0]] + NonNull(holders[1..])
  }

  /** A helper with no entries renders as `className{}`. */
  lemma RenderEmpty(className: string, omitNullValues: bool)
    ensures Render(className, [], omitNullValues) == className + "{}"
  {
  }

  /** Without omission every entry is shown, in the order added. */
  lemma {:induction false} ShownAll(holders: seq<ValueHolder>)
    ensures |Shown(holders, false)| == |holders|
    ensures forall i :: 0 <= i < |holders| ==> Shown(holders, false)[i] == holders[i].text
  {
    if holders != [] {
      ShownAll(holders[..|holders| - 1]);
    }
  }

  lemma {:induction false} NonNullAppend(a: seq<ValueHolder>, b: seq<ValueHolder>)
    ensures NonNull(a + b) == NonNull(a) + NonNull(b)
  {
    if a == [] {
      assert a + b == b;
    } else {
      assert (a + b)[0] == a[0];
      assert (a + b)[1..] == a[1..] + b;
      NonNullAppend(a[1..], b);
      if !a[0].isNull {
        assert NonNull(a + b) == [a[0]] + (NonNull(a[1..]) + NonNull(b));
      }
    }
  }

  /** With omission exactly the entries whose value was not null are shown, in the
      order added. */
  lemma {:induction false} ShownOmitsNulls(holders: seq<ValueHolder>)
    ensures Shown(holders, true) == Shown(NonNull(holders), false)
  {
    if holders != [] {
      var init := holders[..|holders| - 1];
      var last := holders[|holders| - 1];
      ShownOmitsNulls(init);
      assert holders == init + [last];
      NonNullAppend(init, [last]);
      assert [last][1..] == [];
      assert NonNull([last]) == if last.isNull then [] else [last];
      if last.isNull {
        assert NonNull(holders) == NonNull(init) + [] == NonNull(init);
        assert Shown(holders, true) == Shown(init, true) + [];
      } else {
        var kept := NonNull(init) + [last];
        assert NonNull(holders) == kept;
        assert kept[..|kept| - 1] == NonNull(init);
        assert Shown(kept, false) == Shown(NonNull(init), false) + [last.text];
      }
    }
  }

  /** Entries whose value was not null (all primitive entries) are never omitted. */
  lemma {:induction false} ShownKeepsNonNull(holders: seq<ValueHolder>)
    requires forall i :: 0 <= i < |holders| ==> !holders[i].isNull
    ensures Shown(holders, true) == Shown(holders, false)
  {
    if holders != [] {
      ShownKeepsNonNull(holders[..|holders| - 1]);
    }
  }

  /** One turn of the rendering loop: the next entry is appended to the text, behind
      ", " when something was shown before. */
  lemma ShownStep(holders: seq<ValueHolder>, i: nat, omitNullValues: bool)
    requires i < |holders|
    ensures var before := Shown(holders[..i], omitNullValues);
      var h := holders[i];
      && Shown(holders[..i + 1], omitNullValues) == before + (if omitNullValues && h.isNull then [] else [h.text])
      && (!(omitNullValues && h.isNull) ==>
            Join(before + [h.text], ", ") == if before == [] then h.text else Join(before, ", ") + ", " + h.text)
  {
    assert holders[..i + 1][..i] == holders[..i];
    JoinSnoc(Shown(holders[..i], omitNullValues), holders[i].text, ", ");
  }

  class ToStringHelper {
    const className: string
    var valueHolders: seq<ValueHolder>
    var omitNullValues: bool

    /** `Objects.toStringHelper(String)`. */
    constructor (className: string)
      ensures this.className == className && valueHolders == [] && !omitNullValues
    {
      this.className := className;
      valueHolders := [];
      omitNullValues := false;
    }

    /** `Objects.toStringHelper(Class)` and `toStringHelper(Object)`, given the
        class's binary name. */
    constructor ForClass(binaryName: string)
      ensures className == SimpleName(binaryName) && valueHolders == [] && !omitNullValues
    {
      className := SimpleName(binaryName);
      valueHolders := [];
      omitNullValues := false;
    }

    method OmitNullValues()
      modifies this
      ensures omitNullValues && valueHolders == old(valueHolders)
    {
      omitNullValues := true;
    }

    /** `add(String, Object)`. */
    method Add(name: Option<string>, value: Option<string>) returns (r: Outcome<Error>)
      modifies this
      ensures name.None? ==> r == Fail(NullPointer) && valueHolders == old(valueHolders)
      ensures name.Some? ==> r == Pass && valueHolders == old(valueHolders) + [ValueHolder(name.value + "=" + ObjectString(value), value.None?)]
      ensures omitNullValues == old(omitNullValues)
    {
      if name.None? {
        return Fail(NullPointer);
      }
      valueHolders := valueHolders + [ValueHolder(name.value + "=" + ObjectString(value), value.None?)];
      r := Pass;
    }

    /** `add(String, boolean|char|int|long)`: the holder is never marked null. */
    method AddPrimitive(name: Option<string>, value: Primitive) returns (r: Outcome<Error>)
      modifies this
      ensures name.None? ==> r == Fail(NullPointer) && valueHolders == old(valueHolders)
      ensures name.Some? ==> r == Pass && valueHolders == old(valueHolders) + [ValueHolder(name.value + "=" + PrimitiveString(value), false)]
      ensures omitNullValues == old(omitNullValues)
    {
      if name.None? {
        return Fail(NullPointer);
      }
      valueHolders := valueHolders + [ValueHolder(name.value + "=" + PrimitiveString(value), false)];
      r := Pass;
    }

    /** `addValue(Object)`. */
    method AddValue(value: Option<string>)
      modifies this
      ensures valueHolders == old(valueHolders) + [ValueHolder(ObjectString(value), value.None?)]
      ensures omitNullValues == old(omitNullValues)
    {
      valueHolders := valueHolders + [ValueHolder(ObjectString(value), value.None?)];
    }

    /** `addValue(boolean|char|int|long)`. */
    method AddValuePrimitive(value: Primitive)
      modifies this
      ensures valueHolders == old(valueHolders) + [ValueHolder(PrimitiveString(value), false)]
      ensures omitNullValues == old(omitNullValues)
    {
      valueHolders := valueHolders + [ValueHolder(PrimitiveString(value), false)];
    }

    /** `toString()`: reads the state and changes nothing, so repeated calls agree. */
    method ToString() returns (s: string)
      ensures s == Render(className, valueHolders, omitNullValues)
    {
      var omitNullValuesSnapshot := omitNullValues;
      var holders := valueHolders;
      var needsSeparator := false;
      var builder := className + "{";
      var i := 0;
      while i < |holders|
        invariant 0 <= i <= |holders|
        invariant needsSeparator <==> Shown(holders[..i], omitNullValuesSnapshot) != []
        invariant builder == className + "{" + Join(Shown(holders[..i], omitNullValuesSnapshot), ", ")
      {
        var valueHolder := holders[i];
        ghost var before := Shown(holders[..i], omitNullValuesSnapshot);
        ShownStep(holders, i, omitNullValuesSnapshot);
        if !omitNullValuesSnapshot || !valueHolder.isNull {
          if needsSeparator {
            builder := builder + ", ";
          } else {
            needsSeparator := true;
          }
          builder := builder + valueHolder.text;
          assert Shown(holders[..i + 1], omitNullValuesSnapshot) == before + [valueHolder.text];
          assert builder == className + "{" + Join(before + [valueHolder.text], ", ");
        } else {
          assert Shown(holders[..i + 1], omitNullValuesSnapshot) == before;
        }
        i := i + 1;
      }
      assert holders[..i] == holders;
      s := builder + "}";
    }
  }
}
