/**
 * Filter criteria for list endpoints: each criterion names a field (a
 * dotted path, optionally with a join attribute) and a list of conditions
 * joined by AND or OR; criteria are joined by AND. A condition's operator
 * must suit the field's Java type, and its text value is converted to that
 * type. The result is modelled as a predicate over records.
 */
module SpecificationBuilder {
  import opened Wrappers
  import opened Text

  datatype QueryOperator = Equals | NotEquals | GreaterThan | LessThan | Like | NotLike | In | StartsWith | EndsWith

  datatype RelationType = And | Or

  /** The declared Java type of an entity field. */
  datatype JavaType =
    | DoubleClass
    | IntegerClass
    | LongClass        // java.lang.Long
    | LongPrimitive    // long
    | IntPrimitive     // int
    | BooleanClass
    | StringClass
    | UuidClass
    | DateClass
    | EnumClass(constants: seq<string>)
    | ObjectClass

  /** `Number.class.isAssignableFrom(t)`. */
  predicate IsNumberClass(t: JavaType)
  {
    t == DoubleClass || t == IntegerClass || t == LongClass
  }

  /** The operators that compare by order, and the ones that match text patterns. */
  predicate IsOrdering(op: QueryOperator)
  {
    op == GreaterThan || op == LessThan
  }

  predicate IsPattern(op: QueryOperator)
  {
    op == Like || op == NotLike || op == StartsWith || op == EndsWith
  }

  /** `validateOperatorSupportsInputType`. */
  function SupportsInputType(op: QueryOperator, t: JavaType): (r: bool)
    ensures IsOrdering(op) ==> (r <==> IsNumberClass(t) || t == LongPrimitive || t == DateClass)
    ensures IsPattern(op) ==> (r <==> t == StringClass)
    ensures !IsOrdering(op) && !IsPattern(op) ==> r
  {
    match op
    case GreaterThan | LessThan => IsNumberClass(t) || t == LongPrimitive || t == DateClass
    case Like | NotLike | StartsWith | EndsWith => t == StringClass
    case _ => true
  }

  /** `checkOperatorSupportsInput`: a bad request exactly when the operator does not suit the type. */
  function CheckOperatorSupportsInput(op: QueryOperator, t: JavaType): (r: Result<(), Failure>)
    ensures r.Err? <==> !SupportsInputType(op, t)
    ensures r.Err? ==> r.error == BadRequest
  {
    if !SupportsInputType(op, t) then Err(BadRequest) else Ok(())
  }

  // ---------------------------------------------------------------------
  // Values and the conversion of text to a field's type.

  /**
   * A field value, or a converted filter value. `VUnparsed` stands for a
   * floating-point or date value, whose parsing is not modelled.
   */
  datatype Value =
    | VText(s: string)
    | VInt(i: int)
    | VBool(b: bool)
    | VEnum(name: string)
    | VUuid(u: string)
    | VUnparsed(text: string)
    | VNull

  const IntMin: int := -0x8000_0000
  const IntMax: int := 0x7FFF_FFFF
  const LongMin: int := -0x8000_0000_0000_0000
  const LongMax: int := 0x7FFF_FFFF_FFFF_FFFF

  predicate IsDigit(c: char)
  {
    '0' <= c <= '9'
  }

  predicate AllDigits(s: string)
  {
    forall i :: 0 <= i < |s| ==> IsDigit(s[i])
  }

  /** The value of a string of decimal digits. */
  function DigitsValue(s: string): nat
    requires AllDigits(s)
  {
    if s == [] then 0 else DigitsValue(s[..|s| - 1]) * 10 + (s[|s| - 1] as int - '0' as int)
  }

  /**
   * `Integer.valueOf` / `Long.valueOf` on ASCII text: an optional sign, at
   * least one digit, and a value in `[lo, hi]`; anything else is `None`.
   */
  function ParseDecimal(s: string, lo: int, hi: int): (r: Option<int>)
    ensures r.Some? ==> lo <= r.value <= hi
  {
    if s == [] then None
    else
      var negative := s[0] == '-';
      var body := if s[0] == '-' || s[0] == '+' then s[1..] else s;
      if body == [] || !AllDigits(body) then None
      else
        var v: int := if negative then 0 - DigitsValue(body) else DigitsValue(body);
        if lo <= v <= hi then Some(v) else None
  }

  /** Java's `toString` of a natural number. */
  function NatText(n: nat): (r: string)
    ensures r != [] && AllDigits(r)
  {
    if n < 10 then [('0' as int + n) as char] else NatText(n / 10) + [('0' as int + n % 10) as char]
  }

  /** Java's `toString` of an integer. */
  function DecimalText(n: int): string
  {
    if n < 0 then "-" + NatText(-n) else NatText(n)
  }

  lemma {:induction false} NatTextValue(n: nat)
    ensures DigitsValue(NatText(n)) == n
  {
    if n >= 10 {
      NatTextValue(n / 10);
      var t := NatText(n);
      assert t[..|t| - 1] == NatText(n / 10);
    }
  }

  /** Parsing the text of an integer in range gives the integer back. */
  lemma DecimalRoundTrip(n: int, lo: int, hi: int)
    requires lo <= n <= hi
    ensures ParseDecimal(DecimalText(n), lo, hi) == Some(n)
  {
    var t := DecimalText(n);
    if n < 0 {
      var body := NatText(-n);
      assert t[0] == '-' && t[1..] == body;
      NatTextValue(-n);
      assert 0 - DigitsValue(body) == n;
    } else {
      assert IsDigit(t[0]);
      NatTextValue(n);
    }
  }

  predicate IsHex(c: char)
  {
    '0' <= c <= '9' || 'a' <= c <= 'f' || 'A' <= c <= 'F'
  }

  /** The canonical UUID text: 8-4-4-4-12 hexadecimal digits. */
  predicate IsCanonicalUuid(s: string)
  {
    |s| == 36
    && (forall i :: 0 <= i < 36 ==> (if i == 8 || i == 13 || i == 18 || i == 23 then s[i] == '-' else IsHex(s[i])))
  }

  /** The two texts Java's Boolean conversion takes, in any case. */
  predicate IsBooleanText(value: string)
  {
    Lower(value) == "true" || Lower(value) == "false"
  }

  /**
   * `castToRequiredType` as written: the checks in the order the method
   * makes them; a type none of them claims keeps the text unless it reads as
   * a boolean.
   */
  function CastAsWritten(t: JavaType, value: string): (r: Result<Value, Failure>)
    ensures r.Err? ==> r.error == BadRequest
  {
    if t == DoubleClass || t == ObjectClass then Ok(VUnparsed(value))
    else if t == IntegerClass then
      (match ParseDecimal(value, IntMin, IntMax) case Some(n) => Ok(VInt(n)) case None => Err(BadRequest))
    else if t == LongPrimitive then
      (match ParseDecimal(value, LongMin, LongMax) case Some(n) => Ok(VInt(n)) case None => Err(BadRequest))
    else if t.EnumClass? then (if value in t.constants then Ok(VEnum(value)) else Err(BadRequest))
    else if t == UuidClass then (if IsCanonicalUuid(value) then Ok(VUuid(Lower(value))) else Err(BadRequest))
    else if t == DateClass then Ok(VUnparsed(value))
    else if IsBooleanText(value) then Ok(VBool(Lower(value) == "true"))
    else Ok(VText(value))
  }

  /**
   * `castToRequiredType` as evidently intended ("cast to the field's type
   * if possible"): a boxed `Long` and a primitive `int` are parsed like
   * their counterparts, and a `String` field keeps its text.
   */
  function Cast(t: JavaType, value: string): (r: Result<Value, Failure>)
    ensures r.Err? ==> r.error == BadRequest
  {
    if t == DoubleClass || t == ObjectClass then Ok(VUnparsed(value))
    else if t == IntegerClass || t == IntPrimitive then
      (match ParseDecimal(value, IntMin, IntMax) case Some(n) => Ok(VInt(n)) case None => Err(BadRequest))
    else if t == LongPrimitive || t == LongClass then
      (match ParseDecimal(value, LongMin, LongMax) case Some(n) => Ok(VInt(n)) case None => Err(BadRequest))
    else if t.EnumClass? then (if value in t.constants then Ok(VEnum(value)) else Err(BadRequest))
    else if t == UuidClass then (if IsCanonicalUuid(value) then Ok(VUuid(Lower(value))) else Err(BadRequest))
    else if t == DateClass then Ok(VUnparsed(value))
    else if t == StringClass then Ok(VText(value))
    else if IsBooleanText(value) then Ok(VBool(Lower(value) == "true"))
    else Ok(VText(value))
  }

  /** A boxed `Long` field passes the ordering check, but the as-written cast leaves its value as text. */
  lemma BoxedLongStaysTextAsWritten()
    ensures SupportsInputType(GreaterThan, LongClass)
    ensures CastAsWritten(LongClass, "5") == Ok(VText("5"))
    ensures Cast(LongClass, "5") == Ok(VInt(5))
  {
    LowerOfLowerCase("5");
    assert DigitsValue("5") == 5 by {
      assert "5"[..0] == [];
    }
  }

  /** A `String` field compared with "true" gets a boolean from the as-written cast. */
  lemma StringFieldGetsBooleanAsWritten()
    ensures CastAsWritten(StringClass, "true") == Ok(VBool(true))
    ensures Cast(StringClass, "true") == Ok(VText("true"))
  {
    LowerOfLowerCase("true");
  }

  /** The two casts differ only on boxed `Long`, primitive `int` and `String` fields. */
  lemma CastAgreesElsewhere(t: JavaType, value: string)
    requires t != LongClass && t != IntPrimitive && t != StringClass
    ensures Cast(t, value) == CastAsWritten(t, value)
  {
  }

  /** Number fields: the cast succeeds exactly on in-range decimal text, and gives back the printed number. */
  lemma CastNumberMeaning(t: JavaType, value: string, n: int)
    requires t == IntegerClass || t == IntPrimitive || t == LongClass || t == LongPrimitive
    ensures var lo := if t == IntegerClass || t == IntPrimitive then IntMin else LongMin;
            var hi := if t == IntegerClass || t == IntPrimitive then IntMax else LongMax;
            (Cast(t, value).Ok? <==> ParseDecimal(value, lo, hi).Some?)
            && (lo <= n <= hi ==> Cast(t, DecimalText(n)) == Ok(VInt(n)))
  {
    var lo := if t == IntegerClass || t == IntPrimitive then IntMin else LongMin;
    var hi := if t == IntegerClass || t == IntPrimitive then IntMax else LongMax;
    if lo <= n <= hi {
      DecimalRoundTrip(n, lo, hi);
    }
  }

  /** Enum fields: the cast succeeds exactly on a constant's name. */
  lemma CastEnumMeaning(constants: seq<string>, value: string)
    ensures Cast(EnumClass(constants), value) == if value in constants then Ok(VEnum(value)) else Err(BadRequest)
  {
  }

  /**
   * Other fields: "true" and "false" in any case become the boolean, any
   * other text is kept, and the conversion never fails.
   */
  lemma CastBooleanMeaning(value: string)
    ensures Cast(BooleanClass, value) == if IsBooleanText(value) then Ok(VBool(Lower(value) == "true")) else Ok(VText(value))
  {
  }

  /** The boolean words are recognised in any case. */
  lemma CastBooleanAnyCase(b: bool)
    ensures Cast(BooleanClass, if b then "TRUE" else "False") == Ok(VBool(b))
  {
    var word := if b then "TRUE" else "False";
    assert Lower(word) == if b then "true" else "false" by {
      if b {
        LowerCons('T', "RUE");
        LowerCons('R', "UE");
        LowerCons('U', "E");
        LowerCons('E', "");
      } else {
        LowerCons('F', "alse");
        LowerOfLowerCase("alse");
      }
    }
    CastBooleanMeaning(word);
  }

  /** The list cast: one conversion per value, in order; any failure fails the list. */
  function CastAll(t: JavaType, values: seq<string>): (r: Result<seq<Value>, Failure>)
    ensures r.Err? <==> exists i :: 0 <= i < |values| && Cast(t, values[i]).Err?
    ensures r.Err? ==> r.error == BadRequest
    ensures r.Ok? ==> |r.value| == |values| && forall i :: 0 <= i < |values| ==> Ok(r.value[i]) == Cast(t, values[i])
  {
    if values == [] then Ok([])
    else
      var init := values[..|values| - 1];
      assert forall i :: 0 <= i < |init| ==> init[i] == values[i];
      match CastAll(t, init)
      case Err(e) => Err(e)
      case Ok(vs) =>
        match Cast(t, values[|values| - 1])
        case Err(e) => Err(e)
        case Ok(v) => Ok(vs + [v])
  }

  /** `castToRequiredType` on a list. */
  method CastList(t: JavaType, values: seq<string>) returns (r: Result<seq<Value>, Failure>)
    ensures r == CastAll(t, values)
  {
    var lists: seq<Value> := [];
    for i := 0 to |values|
      invariant CastAll(t, values[..i]) == Ok(lists)
    {
      assert values[..i + 1][..i] == values[..i];
      var v := Cast(t, values[i]);
      if v.Err? {
        assert values[..i + 1][i] == values[i];
        ghost var all := values;
        assert Cast(t, all[i]).Err?;
        return Err(v.error);
      }
      lists := lists + [v.value];
    }
    assert values[..|values|] == values;
    r := Ok(lists);
  }

  // ---------------------------------------------------------------------
  // Field paths.

  /** A field reached from the root entity through the named joins. */
  datatype FieldRef = FieldRef(joins: seq<string>, name: string)

  /**
   * `getDbPathObject`'s split: "a.b.c" joins `a` then `b` and names `c`; a
   * field whose split has at most one piece is used as it is.
   */
  function FieldPath(field: string): (r: FieldRef)
  {
    var parts := JavaSplit(field, '.');
    if |parts| > 1 then FieldRef(parts[..|parts| - 1], parts[|parts| - 1]) else FieldRef([], field)
  }

  /** The field reached, after the explicit join attribute when one that is not blank is given. */
  function ResolveField(field: string, joinAttribute: Option<string>): (r: FieldRef)
    ensures r.name == FieldPath(field).name
  {
    var path := FieldPath(field);
    if joinAttribute.Some? && !IsBlank(joinAttribute.value) then FieldRef(path.joins + [joinAttribute.value], path.name)
    else path
  }

  lemma {:induction false} SplitWithoutSeparator(s: string, sep: char)
    requires sep !in s
    ensures SplitChar(s, sep) == [s]
  {
    if s != [] {
      assert sep !in s[1..] by {
        forall i | 0 <= i < |s[1..]|
          ensures s[1..][i] != sep
        {
          assert s[1..][i] == s[i + 1];
        }
      }
      SplitWithoutSeparator(s[1..], sep);
      assert s[0] != sep;
      assert SplitChar(s, sep) == [[s[0]] + s[1..]] + [s[1..]][1..];
      assert [s[0]] + s[1..] == s;
    }
  }

  /** Joining the pieces of a split with the separator gives the text back. */
  lemma {:induction false} JoinSplit(s: string, sep: char)
    ensures Join(SplitChar(s, sep), [sep]) == s
  {
    if s != [] {
      JoinSplit(s[1..], sep);
      var rest := SplitChar(s[1..], sep);
      var parts := SplitChar(s, sep);
      if s[0] != sep {
        assert parts[1..] == rest[1..];
        if |rest| > 1 {
          assert Join(rest, [sep]) == rest[0] + [sep] + Join(rest[1..], [sep]);
          assert Join(parts, [sep]) == parts[0] + [sep] + Join(parts[1..], [sep]);
        } else {
          assert Join(parts, [sep]) == parts[0];
        }
        assert s == [s[0]] + s[1..];
      } else {
        assert parts[1..] == rest;
        assert Join(parts, [sep]) == parts[0] + [sep] + Join(rest, [sep]);
        assert s == [sep] + s[1..];
      }
    }
  }

  /** No piece of a split holds the separator. */
  lemma {:induction false} SplitPiecesLackSeparator(s: string, sep: char)
    ensures forall k :: 0 <= k < |SplitChar(s, sep)| ==> sep !in SplitChar(s, sep)[k]
  {
    if s != [] {
      SplitPiecesLackSeparator(s[1..], sep);
      var rest := SplitChar(s[1..], sep);
      var parts := SplitChar(s, sep);
      if s[0] != sep {
        forall k | 0 <= k < |parts|
          ensures sep !in parts[k]
        {
          if k == 0 {
            assert parts[0] == [s[0]] + rest[0];
          } else {
            assert parts[k] == rest[k];
          }
        }
      } else {
        forall k | 0 <= k < |parts|
          ensures sep !in parts[k]
        {
          if k > 0 {
            assert parts[k] == rest[k - 1];
          }
        }
      }
    }
  }

  /** A text holding the separator splits into at least two pieces. */
  lemma {:induction false} SplitAtSeparator(s: string, sep: char)
    requires sep in s
    ensures |SplitChar(s, sep)| >= 2
  {
    if s[0] != sep {
      assert sep in s[1..] by {
        var k :| 0 <= k < |s| && s[k] == sep;
        assert s[1..][k - 1] == sep;
      }
      SplitAtSeparator(s[1..], sep);
    }
  }

  /** The last piece of a split of a text that does not end with the separator is not empty. */
  lemma {:induction false} SplitLastNotEmpty(s: string, sep: char)
    requires s != [] && s[|s| - 1] != sep
    ensures var parts := SplitChar(s, sep); parts[|parts| - 1] != []
  {
    if |s| > 1 {
      assert s[1..][|s[1..]| - 1] == s[|s| - 1];
      SplitLastNotEmpty(s[1..], sep);
    }
  }

  /** A field without a dot is a field of the root entity. */
  lemma FieldPathPlain(field: string)
    requires '.' !in field
    ensures FieldPath(field) == FieldRef([], field)
  {
    if field != [] {
      SplitWithoutSeparator(field, '.');
    }
  }

  /**
   * A dotted field that does not end with a dot: the joins and the name
   * put back together with dots give the field, and the name has no dot.
   */
  lemma FieldPathRoundTrip(field: string)
    requires '.' in field && field[|field| - 1] != '.'
    ensures var r := FieldPath(field);
            Join(r.joins + [r.name], ".") == field && '.' !in r.name && |r.joins| >= 1
  {
    var parts := SplitChar(field, '.');
    SplitLastNotEmpty(field, '.');
    assert DropTrailingEmpty(parts) == parts;
    JoinSplit(field, '.');
    SplitPiecesLackSeparator(field, '.');
    SplitAtSeparator(field, '.');
    assert parts[..|parts| - 1] + [parts[|parts| - 1]] == parts;
  }

  // ---------------------------------------------------------------------
  // SQL LIKE patterns.

  /** SQL `LIKE`: `%` matches any run of characters, `_` any one character. */
  predicate LikeMatch(s: string, p: string)
    decreases |s| + |p|
  {
    if p == [] then s == []
    else if p[0] == '%' then LikeMatch(s, p[1..]) || (s != [] && LikeMatch(s[1..], p))
    else s != [] && (p[0] == '_' || p[0] == s[0]) && LikeMatch(s[1..], p[1..])
  }

  /** Text with no wildcard character. */
  predicate NoWildcards(v: string)
  {
    '%' !in v && '_' !in v
  }

  lemma {:induction false} LikeAnything(s: string)
    ensures LikeMatch(s, "%")
  {
    if s != [] {
      LikeAnything(s[1..]);
    }
  }

  /** A literal head of a pattern must be a prefix of the text. */
  lemma {:induction false} LikeLiteralHead(s: string, v: string, rest: string)
    requires NoWildcards(v)
    ensures LikeMatch(s, v + rest) <==> Text.StartsWith(s, v) && LikeMatch(s[|v|..], rest)
  {
    if v != [] {
      assert (v + rest)[1..] == v[1..] + rest;
      assert NoWildcards(v[1..]) by {
        assert forall i :: 0 <= i < |v[1..]| ==> v[1..][i] == v[i + 1];
      }
      if s != [] {
        LikeLiteralHead(s[1..], v[1..], rest);
        if |v| <= |s| {
          assert s[1..][|v[1..]|..] == s[|v|..];
          assert s[..|v|] == [s[0]] + s[1..][..|v[1..]|];
          assert v == [v[0]] + v[1..];
        }
      }
    } else {
      assert s[..0] == [] && s[0..] == s && [] + rest == rest;
    }
  }

  /** A leading `%` lets the rest of the pattern match any suffix. */
  lemma {:induction false} LikeLeadingPercent(s: string, q: string)
    ensures LikeMatch(s, "%" + q) <==> exists i :: 0 <= i <= |s| && LikeMatch(s[i..], q)
  {
    assert ("%" + q)[1..] == q;
    if s == [] {
      assert LikeMatch(s, "%" + q) == LikeMatch(s, q);
      assert s[0..] == s;
      if exists i :: 0 <= i <= |s| && LikeMatch(s[i..], q) {
        var i :| 0 <= i <= |s| && LikeMatch(s[i..], q);
        assert s[i..] == s;
      }
    } else {
      LikeLeadingPercent(s[1..], q);
      assert LikeMatch(s, "%" + q) == (LikeMatch(s, q) || LikeMatch(s[1..], "%" + q));
      assert s[0..] == s;
      if exists i :: 0 <= i <= |s| && LikeMatch(s[i..], q) {
        var i :| 0 <= i <= |s| && LikeMatch(s[i..], q);
        if i > 0 {
          assert s[1..][i - 1..] == s[i..];
        }
      }
      if exists i :: 0 <= i <= |s[1..]| && LikeMatch(s[1..][i..], q) {
        var i :| 0 <= i <= |s[1..]| && LikeMatch(s[1..][i..], q);
        assert s[1..][i..] == s[i + 1..];
      }
    }
  }

  /** STARTS_WITH: `v%` matches exactly the texts that start with `v`. */
  lemma LikeStartsWith(s: string, v: string)
    requires NoWildcards(v)
    ensures LikeMatch(s, v + "%") <==> Text.StartsWith(s, v)
  {
    LikeLiteralHead(s, v, "%");
    if |v| <= |s| {
      LikeAnything(s[|v|..]);
    }
    if |v| > |s| {
      assert !Text.StartsWith(s, v);
    }
  }

  /** A pattern without wildcards matches only itself. */
  lemma LikeLiteral(s: string, v: string)
    requires NoWildcards(v)
    ensures LikeMatch(s, v) <==> s == v
  {
    LikeLiteralHead(s, v, []);
    assert v + [] == v;
    if Text.StartsWith(s, v) {
      assert s == s[..|v|] + s[|v|..];
    }
  }

  /** ENDS_WITH: `%v` matches exactly the texts that end with `v`. */
  lemma LikeEndsWith(s: string, v: string)
    requires NoWildcards(v)
    ensures LikeMatch(s, "%" + v) <==> Text.EndsWith(s, v)
  {
    LikeLeadingPercent(s, v);
    if Text.EndsWith(s, v) {
      LikeLiteral(s[|s| - |v|..], v);
    }
    if exists i :: 0 <= i <= |s| && LikeMatch(s[i..], v) {
      var i :| 0 <= i <= |s| && LikeMatch(s[i..], v);
      LikeLiteral(s[i..], v);
    }
  }

  /** LIKE: `%v%` matches exactly the texts that contain `v`. */
  lemma LikeContains(s: string, v: string)
    requires NoWildcards(v)
    ensures LikeMatch(s, "%" + v + "%") <==> Contains(s, v)
  {
    assert "%" + v + "%" == "%" + (v + "%");
    LikeLeadingPercent(s, v + "%");
    if Contains(s, v) {
      var i :| 0 <= i <= |s| && Text.StartsWith(s[i..], v);
      LikeStartsWith(s[i..], v);
    }
    if exists i :: 0 <= i <= |s| && LikeMatch(s[i..], v + "%") {
      var i :| 0 <= i <= |s| && LikeMatch(s[i..], v + "%");
      LikeStartsWith(s[i..], v);
    }
  }

  /** The value is not escaped: its own `_` matches any character. */
  lemma UnderscoreInValueIsWildcard()
    ensures LikeMatch("abc", "%" + "a_c" + "%")
    ensures !Contains("abc", "a_c")
  {
    assert ("%" + "a_c" + "%")[1..] == "a_c%";
    assert LikeMatch("abc"[3..], "%");
    assert "abc"[1..] == "bc" && "abc"[2..] == "c";
    assert LikeMatch("abc", "a_c%");
    MissingCharNotContained("abc", "a_c", 1);
  }

  // ---------------------------------------------------------------------
  // Conditions, criteria and their composition.

  datatype FilterCondition = FilterCondition(operator: QueryOperator, value: string, values: seq<string>)

  datatype FilterCriteria = FilterCriteria(relationType: RelationType, field: string, joinAttribute: Option<string>,
                                           conditions: seq<FilterCondition>)

  /** The entity's fields and their declared types; a field that is not a key does not exist. */
  type Schema = map<FieldRef, JavaType>

  /** A record's field values; a field that is not a key is null. */
  type Record = map<FieldRef, Value>

  /** A condition made concrete for one field. */
  datatype Predicate =
    | LowerEquals(field: FieldRef, text: string, negated: bool)   // lower(field) = text, or <>
    | ValueEquals(field: FieldRef, arg: Value, negated: bool)     // field = arg, or <>
    | Ordered(field: FieldRef, arg: Value, greater: bool)         // field > arg, or <
    | LowerLike(field: FieldRef, pattern: string, negated: bool)  // lower(field) LIKE pattern, or NOT LIKE
    | InList(field: FieldRef, args: seq<Value>)                   // field IN (args)

  /** The pattern of a text operator, around the lower-cased value. */
  function LikePattern(op: QueryOperator, lowered: string): string
    requires IsPattern(op)
  {
    match op
    case StartsWith => lowered + "%"
    case EndsWith => "%" + lowered
    case _ => "%" + lowered + "%"
  }

  /**
   * `createSpecification` with `getDbPathObject`: the field must exist, the
   * operator must suit its type, and the value must convert to that type;
   * text equality and the pattern operators compare lower-cased text.
   */
  function CreatePredicate(schema: Schema, field: string, joinAttribute: Option<string>, c: FilterCondition): (r: Result<Predicate, Failure>)
    ensures r.Err? ==> r.error == BadRequest
  {
    var f := ResolveField(field, joinAttribute);
    if f !in schema then Err(BadRequest)
    else
      var t := schema[f];
      if CheckOperatorSupportsInput(c.operator, t).Err? then Err(BadRequest)
      else match c.operator
        case Equals | NotEquals =>
          if t == StringClass then Ok(LowerEquals(f, Lower(c.value), c.operator == NotEquals))
          else (match Cast(t, c.value) case Err(e) => Err(e) case Ok(v) => Ok(ValueEquals(f, v, c.operator == NotEquals)))
        case GreaterThan | LessThan =>
          (match Cast(t, c.value) case Err(e) => Err(e) case Ok(v) => Ok(Ordered(f, v, c.operator == GreaterThan)))
        case Like | NotLike | StartsWith | EndsWith =>
          Ok(LowerLike(f, LikePattern(c.operator, Lower(c.value)), c.operator == NotLike))
        case In =>
          (match CastAll(t, c.values) case Err(e) => Err(e) case Ok(vs) => Ok(InList(f, vs)))
  }

  /**
   * A condition fails exactly when its field does not exist, the operator
   * does not suit the field's type, or the value does not convert (the
   * pattern operators convert a String field's text, which cannot fail).
   */
  lemma CreatePredicateFails(schema: Schema, field: string, joinAttribute: Option<string>, c: FilterCondition)
    ensures var r := CreatePredicate(schema, field, joinAttribute, c);
            r.Err? <==> ResolveField(field, joinAttribute) !in schema
                        || !SupportsInputType(c.operator, schema[ResolveField(field, joinAttribute)])
                        || (c.operator == In && CastAll(schema[ResolveField(field, joinAttribute)], c.values).Err?)
                        || (c.operator != In && !IsPattern(c.operator)
                            && Cast(schema[ResolveField(field, joinAttribute)],
                                    if schema[ResolveField(field, joinAttribute)] == StringClass then Lower(c.value) else c.value).Err?)
  {
  }

  /** A String field's cast keeps the text, so the pattern holds the lower-cased value as given. */
  lemma StringCastIsIdentity(value: string)
    ensures Cast(StringClass, value) == Ok(VText(value))
  {
  }

  function FieldValue(record: Record, f: FieldRef): Value
  {
    if f in record then record[f] else VNull
  }

  /**
   * Whether a record satisfies a predicate. A null field satisfies none of
   * them, negated ones included, as in SQL; ordering is modelled on
   * integers only.
   */
  predicate Holds(p: Predicate, record: Record)
  {
    var v := FieldValue(record, p.field);
    match p
    case LowerEquals(_, text, negated) => v.VText? && ((Lower(v.s) == text) != negated)
    case ValueEquals(_, arg, negated) => v != VNull && ((v == arg) != negated)
    case Ordered(_, arg, greater) => v.VInt? && arg.VInt? && (if greater then v.i > arg.i else v.i < arg.i)
    case LowerLike(_, pattern, negated) => v.VText? && (LikeMatch(Lower(v.s), pattern) != negated)
    case InList(_, args) => v != VNull && v in args
  }

  /** EQUALS on a String field ignores case on both sides. */
  lemma EqualsIgnoresCase(schema: Schema, field: string, value: string, record: Record)
    requires ResolveField(field, None) in schema && schema[ResolveField(field, None)] == StringClass
    ensures var r := CreatePredicate(schema, field, None, FilterCondition(Equals, value, []));
            var v := FieldValue(record, ResolveField(field, None));
            r.Ok? && (Holds(r.value, record) <==> v.VText? && EqualsIgnoreCase(v.s, value))
  {
  }

  /** STARTS_WITH on a String field, for a value without wildcards: the lower-cased field starts with the lower-cased value. */
  lemma StartsWithMeaning(schema: Schema, field: string, value: string, record: Record)
    requires ResolveField(field, None) in schema && schema[ResolveField(field, None)] == StringClass
    requires NoWildcards(Lower(value))
    ensures var r := CreatePredicate(schema, field, None, FilterCondition(StartsWith, value, []));
            var v := FieldValue(record, ResolveField(field, None));
            r.Ok? && (Holds(r.value, record) <==> v.VText? && Text.StartsWith(Lower(v.s), Lower(value)))
  {
    var v := FieldValue(record, ResolveField(field, None));
    if v.VText? {
      LikeStartsWith(Lower(v.s), Lower(value));
    }
  }

  /** LIKE on a String field, for a value without wildcards: the lower-cased field contains the lower-cased value. */
  lemma LikeMeaning(schema: Schema, field: string, value: string, record: Record)
    requires ResolveField(field, None) in schema && schema[ResolveField(field, None)] == StringClass
    requires NoWildcards(Lower(value))
    ensures var r := CreatePredicate(schema, field, None, FilterCondition(Like, value, []));
            var v := FieldValue(record, ResolveField(field, None));
            r.Ok? && (Holds(r.value, record) <==> v.VText? && Contains(Lower(v.s), Lower(value)))
  {
    var v := FieldValue(record, ResolveField(field, None));
    if v.VText? {
      LikeContains(Lower(v.s), Lower(value));
    }
  }

  /** ENDS_WITH on a String field, for a value without wildcards: the lower-cased field ends with the lower-cased value. */
  lemma EndsWithMeaning(schema: Schema, field: string, value: string, record: Record)
    requires ResolveField(field, None) in schema && schema[ResolveField(field, None)] == StringClass
    requires NoWildcards(Lower(value))
    ensures var r := CreatePredicate(schema, field, None, FilterCondition(EndsWith, value, []));
            var v := FieldValue(record, ResolveField(field, None));
            r.Ok? && (Holds(r.value, record) <==> v.VText? && Text.EndsWith(Lower(v.s), Lower(value)))
  {
    var v := FieldValue(record, ResolveField(field, None));
    if v.VText? {
      LikeEndsWith(Lower(v.s), Lower(value));
    }
  }

  /** A specification: a tree of conditions on fields, joined by AND and OR. */
  datatype Spec =
    | Condition(field: string, joinAttribute: Option<string>, condition: FilterCondition)
    | Both(left: Spec, right: Spec)
    | Either(left: Spec, right: Spec)

  /**
   * Spring's `and`/`or` composition: a missing side (`where(null)`) leaves
   * the other side as it is.
   */
  function Compose(acc: Option<Spec>, s: Spec, relation: RelationType): (r: Option<Spec>)
    ensures r.Some?
  {
    if acc.None? then Some(s)
    else if relation == Or then Some(Either(acc.value, s))
    else Some(Both(acc.value, s))
  }

  function ComposeOptional(acc: Option<Spec>, s: Option<Spec>): Option<Spec>
  {
    if s.None? then acc else Compose(acc, s.value, And)
  }

  /** One criterion's conditions, folded from the left with its relation. */
  function CriterionSpec(c: FilterCriteria, n: nat): Option<Spec>
    requires n <= |c.conditions|
  {
    if n == 0 then None
    else Compose(CriterionSpec(c, n - 1), Condition(c.field, c.joinAttribute, c.conditions[n - 1]), c.relationType)
  }

  /** The criteria, folded from the left with AND. */
  function FiltersSpec(criteria: seq<FilterCriteria>): Option<Spec>
  {
    if criteria == [] then None
    else
      var c := criteria[|criteria| - 1];
      ComposeOptional(FiltersSpec(criteria[..|criteria| - 1]), CriterionSpec(c, |c.conditions|))
  }

  /** `getSpecificationFromFilters`. */
  method GetSpecificationFromFilters(filter: seq<FilterCriteria>) returns (specification: Option<Spec>)
    ensures specification == FiltersSpec(filter)
  {
    specification := None;
    for i := 0 to |filter|
      invariant specification == FiltersSpec(filter[..i])
    {
      var input := filter[i];
      var nestedSpec: Option<Spec> := None;
      for j := 0 to |input.conditions|
        invariant nestedSpec == CriterionSpec(input, j)
      {
        nestedSpec := Compose(nestedSpec, Condition(input.field, input.joinAttribute, input.conditions[j]), input.relationType);
      }
      assert filter[..i + 1][..i] == filter[..i];
      specification := ComposeOptional(specification, nestedSpec);
    }
    assert filter[..|filter|] == filter;
  }

  /**
   * Evaluating a specification on a record: every condition's predicate is
   * built (so any failing condition fails the query), then AND and OR
   * combine; no specification matches every record.
   */
  function Evaluate(schema: Schema, spec: Spec, record: Record): (r: Result<bool, Failure>)
    ensures r.Err? ==> r.error == BadRequest
  {
    match spec
    case Condition(field, join, c) =>
      (match CreatePredicate(schema, field, join, c) case Err(e) => Err(e) case Ok(p) => Ok(Holds(p, record)))
    case Both(l, r) =>
      (match Evaluate(schema, l, record)
       case Err(e) => Err(e)
       case Ok(a) => match Evaluate(schema, r, record) case Err(e) => Err(e) case Ok(b) => Ok(a && b))
    case Either(l, r) =>
      (match Evaluate(schema, l, record)
       case Err(e) => Err(e)
       case Ok(a) => match Evaluate(schema, r, record) case Err(e) => Err(e) case Ok(b) => Ok(a || b))
  }

  function EvaluateOptional(schema: Schema, spec: Option<Spec>, record: Record): Result<bool, Failure>
  {
    if spec.None? then Ok(true) else Evaluate(schema, spec.value, record)
  }

  /** A condition of the criterion cannot be built. */
  predicate CriterionFails(schema: Schema, c: FilterCriteria, n: nat)
    requires n <= |c.conditions|
  {
    exists j :: 0 <= j < n && CreatePredicate(schema, c.field, c.joinAttribute, c.conditions[j]).Err?
  }

  /** The condition builds and the record satisfies it. */
  predicate ConditionHolds(schema: Schema, c: FilterCriteria, j: nat, record: Record)
    requires j < |c.conditions|
  {
    var p := CreatePredicate(schema, c.field, c.joinAttribute, c.conditions[j]);
    p.Ok? && Holds(p.value, record)
  }

  /** The criterion's meaning: with OR, no conditions or one that holds; with AND, all of them hold. */
  predicate CriterionHolds(schema: Schema, c: FilterCriteria, n: nat, record: Record)
    requires n <= |c.conditions|
  {
    if c.relationType == Or then n == 0 || exists j :: 0 <= j < n && ConditionHolds(schema, c, j, record)
    else forall j :: 0 <= j < n ==> ConditionHolds(schema, c, j, record)
  }

  /** Adding a condition to an OR criterion: one more alternative, or the only one. */
  lemma OrStep(schema: Schema, c: FilterCriteria, n: nat, record: Record)
    requires 0 < n <= |c.conditions| && c.relationType == Or
    ensures CriterionHolds(schema, c, n, record)
            == ((n - 1 > 0 && CriterionHolds(schema, c, n - 1, record)) || ConditionHolds(schema, c, n - 1, record))
  {
    if CriterionHolds(schema, c, n, record) {
      var j :| 0 <= j < n && ConditionHolds(schema, c, j, record);
      if j < n - 1 {
        assert CriterionHolds(schema, c, n - 1, record);
      }
    }
  }

  /** Adding a condition to an AND criterion: one more conjunct. */
  lemma AndStep(schema: Schema, c: FilterCriteria, n: nat, record: Record)
    requires 0 < n <= |c.conditions| && c.relationType == And
    ensures CriterionHolds(schema, c, n, record)
            == (CriterionHolds(schema, c, n - 1, record) && ConditionHolds(schema, c, n - 1, record))
  {
  }

  /** Adding a condition to a criterion: it fails when the new condition does. */
  lemma FailsStep(schema: Schema, c: FilterCriteria, n: nat)
    requires 0 < n <= |c.conditions|
    ensures CriterionFails(schema, c, n)
            == (CriterionFails(schema, c, n - 1) || CreatePredicate(schema, c.field, c.joinAttribute, c.conditions[n - 1]).Err?)
  {
    if CriterionFails(schema, c, n) {
      var j :| 0 <= j < n && CreatePredicate(schema, c.field, c.joinAttribute, c.conditions[j]).Err?;
      if j < n - 1 {
        assert CriterionFails(schema, c, n - 1);
      }
    }
  }

  /**
   * One criterion: it fails exactly when one of its conditions cannot be
   * built, and otherwise holds as `CriterionHolds` says.
   */
  lemma {:induction false} CriterionSpecMeaning(schema: Schema, c: FilterCriteria, n: nat, record: Record)
    requires n <= |c.conditions|
    ensures EvaluateOptional(schema, CriterionSpec(c, n), record)
            == if CriterionFails(schema, c, n) then Err(BadRequest) else Ok(CriterionHolds(schema, c, n, record))
  {
    if n > 0 {
      CriterionSpecMeaning(schema, c, n - 1, record);
      FailsStep(schema, c, n);
      var cond := Condition(c.field, c.joinAttribute, c.conditions[n - 1]);
      var p := CreatePredicate(schema, c.field, c.joinAttribute, c.conditions[n - 1]);
      assert Evaluate(schema, cond, record) == if p.Err? then Err(BadRequest) else Ok(Holds(p.value, record));
      assert ConditionHolds(schema, c, n - 1, record) == (p.Ok? && Holds(p.value, record));
      if c.relationType == Or {
        OrStep(schema, c, n, record);
        if n - 1 == 0 {
          assert CriterionSpec(c, n) == Some(cond);
          assert !CriterionFails(schema, c, 0);
        } else {
          assert CriterionSpec(c, n) == Some(Either(CriterionSpec(c, n - 1).value, cond));
        }
      } else {
        AndStep(schema, c, n, record);
      }
    }
  }

  /** Some condition of some criterion cannot be built. */
  predicate FiltersFail(schema: Schema, criteria: seq<FilterCriteria>)
  {
    exists i :: 0 <= i < |criteria| && CriterionFails(schema, criteria[i], |criteria[i].conditions|)
  }

  /** Every criterion holds. */
  predicate AllCriteriaHold(schema: Schema, criteria: seq<FilterCriteria>, record: Record)
  {
    forall i :: 0 <= i < |criteria| ==> CriterionHolds(schema, criteria[i], |criteria[i].conditions|, record)
  }

  /** Adding a criterion: the filter fails when the earlier ones or the new one does. */
  lemma FiltersFailStep(schema: Schema, init: seq<FilterCriteria>, c: FilterCriteria)
    ensures FiltersFail(schema, init + [c]) <==> FiltersFail(schema, init) || CriterionFails(schema, c, |c.conditions|)
  {
    var criteria := init + [c];
    if CriterionFails(schema, c, |c.conditions|) {
      assert criteria[|init|] == c;
    }
    if FiltersFail(schema, init) {
      var i :| 0 <= i < |init| && CriterionFails(schema, init[i], |init[i].conditions|);
      assert criteria[i] == init[i];
    }
    if FiltersFail(schema, criteria) {
      var i :| 0 <= i < |criteria| && CriterionFails(schema, criteria[i], |criteria[i].conditions|);
      if i < |init| {
        assert criteria[i] == init[i];
      }
    }
  }

  /** Adding a criterion: every criterion holds when the earlier ones and the new one do. */
  lemma AllHoldStep(schema: Schema, init: seq<FilterCriteria>, c: FilterCriteria, record: Record)
    ensures AllCriteriaHold(schema, init + [c], record)
            <==> AllCriteriaHold(schema, init, record) && CriterionHolds(schema, c, |c.conditions|, record)
  {
    var criteria := init + [c];
    if AllCriteriaHold(schema, criteria, record) {
      assert criteria[|init|] == c;
      forall i | 0 <= i < |init|
        ensures CriterionHolds(schema, init[i], |init[i].conditions|, record)
      {
        assert criteria[i] == init[i];
      }
    }
    if AllCriteriaHold(schema, init, record) && CriterionHolds(schema, c, |c.conditions|, record) {
      forall i | 0 <= i < |criteria|
        ensures CriterionHolds(schema, criteria[i], |criteria[i].conditions|, record)
      {
        if i < |init| {
          assert criteria[i] == init[i];
        } else {
          assert criteria[i] == c;
        }
      }
    }
  }

  /**
   * The whole filter: it fails exactly when some condition cannot be built,
   * and otherwise a record matches exactly when it satisfies every
   * criterion; an empty filter matches every record.
   */
  lemma {:induction false} FiltersSpecMeaning(schema: Schema, criteria: seq<FilterCriteria>, record: Record)
    ensures EvaluateOptional(schema, FiltersSpec(criteria), record)
            == if FiltersFail(schema, criteria) then Err(BadRequest) else Ok(AllCriteriaHold(schema, criteria, record))
  {
    if criteria != [] {
      var init := criteria[..|criteria| - 1];
      var c := criteria[|criteria| - 1];
      assert criteria == init + [c];
      FiltersSpecMeaning(schema, init, record);
      CriterionSpecMeaning(schema, c, |c.conditions|, record);
      FiltersFailStep(schema, init, c);
      AllHoldStep(schema, init, c, record);
      var acc := FiltersSpec(init);
      var spec := CriterionSpec(c, |c.conditions|);
      assert FiltersSpec(criteria) == ComposeOptional(acc, spec);
      if spec.None? {
        assert FiltersSpec(criteria) == acc;
      } else if acc.None? {
        assert FiltersSpec(criteria) == spec;
      } else {
        assert FiltersSpec(criteria) == Some(Both(acc.value, spec.value));
      }
    }
  }
}
