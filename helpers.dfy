/** helpers.py: the printf-pattern validator and the build-wide sets of LVGL
    features and components that code generation switches on. */
module Helpers {
  import opened Wrappers
  import opened Strings
  import opened Emit

  // ---------------------------------------------------------------------------
  // Features and components used

  /** The initial contents of `lv_uses`. */
  const DefaultUses: set<string> := {"USER_DATA", "LOG", "STYLE", "FONT_PLACEHOLDER", "THEME_DEFAULT"}

  function SetOf(names: seq<string>): (r: set<string>)
    ensures forall n :: n in r <==> n in names
  {
    set k | 0 <= k < |names| :: names[k]
  }

  /** The module-level sets `lv_uses` and `lvgl_components_required`. */
  class Uses {
    var lvUses: set<string>
    var componentsRequired: set<string>

    constructor ()
      ensures lvUses == DefaultUses && componentsRequired == {}
    {
      lvUses := DefaultUses;
      componentsRequired := {};
    }

    /** `add_lv_use(*names)`: the names are added and nothing is removed. */
    method AddLvUse(names: seq<string>)
      modifies this
      ensures lvUses == old(lvUses) + SetOf(names)
      ensures componentsRequired == old(componentsRequired)
    {
      var i := 0;
      while i < |names|
        invariant 0 <= i <= |names|
        invariant lvUses == old(lvUses) + SetOf(names[..i])
        invariant componentsRequired == old(componentsRequired)
      {
        assert names[..i + 1] == names[..i] + [names[i]];
        lvUses := lvUses + {names[i]};
        i := i + 1;
      }
      assert names[..i] == names;
    }

    /** `lvgl_components_required.add(comp)`, as the widgets' `to_code` do it. */
    method AddComponent(comp: string)
      modifies this
      ensures componentsRequired == old(componentsRequired) + {comp}
      ensures lvUses == old(lvUses)
    {
      componentsRequired := componentsRequired + {comp};
    }

    /** The validator `requires_component(comp)` returns: it records the
        component first, then fails unless the component is part of the
        build (`loaded`), and otherwise passes the value through. */
    method RequiresComponent(comp: string, loaded: set<string>, value: Value) returns (r: Result<Value, string>)
      modifies this
      ensures componentsRequired == old(componentsRequired) + {comp}
      ensures lvUses == old(lvUses)
      ensures r.Ok? <==> comp in loaded
      ensures r.Ok? ==> r.value == value
    {
      componentsRequired := componentsRequired + {comp};
      if comp in loaded {
        r := Ok(value);
      } else {
        r := Err("This option requires component " + comp);
      }
    }
  }

  // ---------------------------------------------------------------------------
  // printf conversion patterns

  /** The two expressions: `c_regex` accepts every conversion type,
      `f_regex` only `f`. */
  datatype Pattern = AnyConversion | FloatConversion

  predicate IsType(p: Pattern, c: char) {
    match p
    case FloatConversion => c == 'f'
    case AnyConversion =>
      c == 'c' || c == 'C' || c == 'd' || c == 'i' || c == 'o' || c == 'u' || c == 'x' || c == 'X'
      || c == 'e' || c == 'E' || c == 'f' || c == 'g' || c == 'G' || c == 'a' || c == 'A' || c == 'n'
      || c == 'p' || c == 's' || c == 'S' || c == 'Z'
  }

  predicate IsFlag(c: char) { c == '-' || c == '+' || c == '0' || c == ' ' || c == '#' }

  predicate IsFlags(m: string) {
    |m| <= 5 && forall k :: 0 <= k < |m| ==> IsFlag(m[k])
  }

  /** `(?:\d+|\*)` */
  predicate IsCount(m: string) {
    m == "*" || (|m| > 0 && AllDigits(m))
  }

  predicate IsWidth(m: string) { m == "" || IsCount(m) }

  predicate IsPrecision(m: string) {
    m == "" || (|m| > 0 && m[0] == '.' && IsCount(m[1..]))
  }

  /** `(?:h|l|ll|w|I|I32|I64)?` */
  predicate IsSize(m: string) {
    m == "" || m == "h" || m == "l" || m == "ll" || m == "w" || m == "I" || m == "I32" || m == "I64"
  }

  /** What may stand between `%` and the type character: flags, width,
      precision and size, each optional, in that order. */
  predicate IsSpec(m: string) {
    exists a, b, c | 0 <= a <= b <= c <= |m| ::
      IsFlags(m[..a]) && IsWidth(m[a..b]) && IsPrecision(m[b..c]) && IsSize(m[c..])
  }

  /** The text `m` is one match of the expression. */
  predicate IsConversion(m: string, p: Pattern) {
    |m| >= 2 && m[0] == '%' && IsType(p, m[|m| - 1]) && IsSpec(m[1..|m| - 1])
  }

  /** The characters a flag, width, precision or size can consist of. */
  predicate SpecChar(c: char) {
    IsFlag(c) || IsDigit(c) || c == '*' || c == '.' || c == 'h' || c == 'l' || c == 'w' || c == 'I'
  }

  predicate AllSpecChars(m: string) {
    forall k :: 0 <= k < |m| ==> SpecChar(m[k])
  }

  lemma AllSpecCharsAppend(x: string, y: string)
    requires AllSpecChars(x) && AllSpecChars(y)
    ensures AllSpecChars(x + y)
  {
    forall k | 0 <= k < |x + y|
      ensures SpecChar((x + y)[k])
    {
      if k >= |x| {
        assert (x + y)[k] == y[k - |x|];
      }
    }
  }

  lemma PrecisionChars(m: string)
    requires IsPrecision(m)
    ensures AllSpecChars(m)
  {
    forall k | 0 <= k < |m|
      ensures SpecChar(m[k])
    {
      if k > 0 {
        assert m[k] == m[1..][k - 1];
      }
    }
  }

  lemma SizeChars(m: string)
    requires IsSize(m)
    ensures AllSpecChars(m)
  {
  }

  lemma SpecChars(m: string)
    requires IsSpec(m)
    ensures AllSpecChars(m)
  {
    var a, b, c :| 0 <= a <= b <= c <= |m| &&
      IsFlags(m[..a]) && IsWidth(m[a..b]) && IsPrecision(m[b..c]) && IsSize(m[c..]);
    SpecCharsSplit(m, a, b, c);
  }

  lemma SpecCharsSplit(m: string, a: nat, b: nat, c: nat)
    requires a <= b <= c <= |m|
    requires IsFlags(m[..a]) && IsWidth(m[a..b]) && IsPrecision(m[b..c]) && IsSize(m[c..])
    ensures AllSpecChars(m)
  {
    assert AllSpecChars(m[..a]);
    assert AllSpecChars(m[a..b]);
    PrecisionChars(m[b..c]);
    SizeChars(m[c..]);
    forall k | 0 <= k < |m|
      ensures SpecChar(m[k])
    {
      if k < a {
        assert m[k] == m[..a][k];
      } else if k < b {
        assert m[k] == m[a..b][k - a];
      } else if k < c {
        assert m[k] == m[b..c][k - b];
      } else {
        assert m[k] == m[c..][k - c];
      }
    }
  }

  /** The text strictly between the first and the last character of `s[i..e]`. */
  lemma Inner(s: string, i: nat, e: nat)
    requires i + 2 <= e <= |s|
    ensures s[i..e][1..e - i - 1] == s[i + 1..e - 1]
    ensures s[i..e][e - i - 1] == s[e - 1]
  {
    var m := s[i..e];
    var x, y := m[1..e - i - 1], s[i + 1..e - 1];
    forall k | 0 <= k < |x|
      ensures x[k] == y[k]
    {
      assert x[k] == m[k + 1] == s[i + k + 1];
    }
  }

  /** The first position at or after `j` whose character cannot belong to a
      flag, width, precision or size. */
  function FirstNonSpec(s: string, j: nat): (k: nat)
    requires j <= |s|
    ensures j <= k <= |s|
    ensures forall t :: j <= t < k ==> SpecChar(s[t])
    ensures k < |s| ==> !SpecChar(s[k])
    decreases |s| - j
  {
    if j == |s| || !SpecChar(s[j]) then j else FirstNonSpec(s, j + 1)
  }

  /** Where a match starting at `i` ends, if one does. */
  function MatchAt(s: string, i: nat, p: Pattern): Option<nat>
    requires i < |s|
  {
    if s[i] != '%' then None
    else
      var j := FirstNonSpec(s, i + 1);
      if j < |s| && IsType(p, s[j]) && IsSpec(s[i + 1..j]) then Some(j + 1) else None
  }

  /** A match at `i` ends exactly where `MatchAt` says: no type character
      can occur among the flags, width, precision and size, so a match
      starting at `i` has a single possible end and the expression's
      preference among alternatives does not matter. */
  lemma MatchAtSpec(s: string, i: nat, p: Pattern, e: nat)
    requires i < e <= |s|
    ensures IsConversion(s[i..e], p) <==> MatchAt(s, i, p) == Some(e)
  {
    if IsConversion(s[i..e], p) {
      MatchEnd(s, i, p, e);
    }
    if MatchAt(s, i, p) == Some(e) {
      Inner(s, i, e);
    }
  }

  lemma MatchEnd(s: string, i: nat, p: Pattern, e: nat)
    requires i < e <= |s| && IsConversion(s[i..e], p)
    ensures MatchAt(s, i, p) == Some(e)
  {
    Inner(s, i, e);
    SpecChars(s[i + 1..e - 1]);
    assert forall t :: i + 1 <= t < e - 1 ==> SpecChar(s[t]) by {
      forall t | i + 1 <= t < e - 1
        ensures SpecChar(s[t])
      {
        assert s[t] == s[i + 1..e - 1][t - i - 1];
      }
    }
    FirstNonSpecAt(s, i + 1, e - 1);
  }

  lemma {:induction false} FirstNonSpecAt(s: string, j: nat, k: nat)
    requires j <= k < |s| && (forall t :: j <= t < k ==> SpecChar(s[t])) && !SpecChar(s[k])
    ensures FirstNonSpec(s, j) == k
    decreases k - j
  {
    if j < k {
      FirstNonSpecAt(s, j + 1, k);
    }
  }

  /** `regex.findall(s[i:])`: the leftmost match, then the search resumes
      after it. */
  function FindAll(s: string, i: nat, p: Pattern): (r: seq<string>)
    requires i <= |s|
    ensures forall k :: 0 <= k < |r| ==> IsConversion(r[k], p)
    decreases |s| - i
  {
    if i == |s| then []
    else match MatchAt(s, i, p)
      case Some(e) =>
        assert IsConversion(s[i..e], p) by {
          MatchAtSpec(s, i, p, e);
        }
        [s[i..e]] + FindAll(s, e, p)
      case None => FindAll(s, i + 1, p)
  }

  /** A text without `%` holds no pattern. */
  lemma {:induction false} NoPercentNoPattern(s: string, i: nat, p: Pattern)
    requires i <= |s| && forall k :: i <= k < |s| ==> s[k] != '%'
    ensures FindAll(s, i, p) == []
    decreases |s| - i
  {
    if i < |s| {
      NoPercentNoPattern(s, i + 1, p);
    }
  }

  /** Every `%f` pattern is a pattern of `c_regex` too. */
  lemma {:induction false} FloatPatternsCounted(s: string, i: nat)
    requires i <= |s|
    ensures |FindAll(s, i, FloatConversion)| <= |FindAll(s, i, AnyConversion)|
    decreases |s| - i
  {
    if i < |s| {
      match MatchAt(s, i, FloatConversion)
      case Some(e) =>
        assert MatchAt(s, i, AnyConversion) == Some(e);
        FloatPatternsCounted(s, e);
      case None =>
        match MatchAt(s, i, AnyConversion)
        case Some(e) =>
          FloatPatternsSkip(s, i, e);
          FloatPatternsCounted(s, e);
        case None =>
          FloatPatternsCounted(s, i + 1);
    }
  }

  /** Skipping over a non-`f` pattern loses no `%f` pattern: its characters
      after `%` contain no `%`. */
  lemma FloatPatternsSkip(s: string, i: nat, e: nat)
    requires i < |s| && MatchAt(s, i, AnyConversion) == Some(e) && MatchAt(s, i, FloatConversion).None?
    ensures FindAll(s, i, FloatConversion) == FindAll(s, e, FloatConversion)
  {
    SkipNoPercent(s, i + 1, e);
  }

  lemma {:induction false} SkipNoPercent(s: string, i: nat, e: nat)
    requires 0 < i <= e <= |s| && forall k :: i <= k < e ==> s[k] != '%'
    ensures FindAll(s, i - 1 + 1, FloatConversion) == FindAll(s, e, FloatConversion)
    decreases e - i
  {
    if i < e {
      SkipNoPercent(s, i + 1, e);
    }
  }

  /** `validate_printf`: the format must hold as many patterns as there are
      arguments, and with a truthy `if_nan` exactly one `%f` pattern; the
      value is returned unchanged. */
  function ValidatePrintf(value: map<string, Value>): (r: Result<map<string, Value>, string>)
    requires "format" in value && value["format"].Str?
    requires "args" in value && value["args"].List?
    ensures r.Ok? ==> r.value == value
    ensures r.Ok? <==>
      && |FindAll(value["format"].s, 0, AnyConversion)| == |value["args"].items|
      && ("if_nan" in value && Truthy(value["if_nan"]) ==> |FindAll(value["format"].s, 0, FloatConversion)| == 1)
  {
    var fmt := value["format"].s;
    var matches := FindAll(fmt, 0, AnyConversion);
    if |matches| != |value["args"].items| then
      Err("Found " + NatToString(|matches|) + " printf-patterns (" + Join(", ", matches) + "), but "
          + NatToString(|value["args"].items|) + " args were given!")
    else if "if_nan" in value && Truthy(value["if_nan"]) && |FindAll(fmt, 0, FloatConversion)| != 1 then
      Err("Use of 'if_nan' requires a single valid printf-pattern of type %f")
    else Ok(value)
  }

  /** `"%%d"` is read as one `%d` pattern: the escape `%%` is not
      recognised, so this format needs one argument. */
  lemma PercentEscapeCounts()
    ensures FindAll("%%d", 0, AnyConversion) == ["%d"]
  {
    var s := "%%d";
    FirstNonSpecAt(s, 1, 1);
    FirstNonSpecAt(s, 2, 2);
    assert IsSpec(s[2..2]) by {
      SpecOf(s[2..2], 0, 0, 0);
    }
    assert MatchAt(s, 0, AnyConversion).None?;
    assert MatchAt(s, 1, AnyConversion) == Some(3);
    assert FindAll(s, 3, AnyConversion) == [];
    assert FindAll(s, 1, AnyConversion) == [s[1..3]];
    assert s[1..3] == "%d";
  }

  lemma SpecOf(m: string, a: nat, b: nat, c: nat)
    requires a <= b <= c <= |m|
    requires IsFlags(m[..a]) && IsWidth(m[a..b]) && IsPrecision(m[b..c]) && IsSize(m[c..])
    ensures IsSpec(m)
  {
  }

  /** `"%-08.3lf"` is one pattern for both expressions. */
  lemma FullPatternExample()
    ensures FindAll("%-08.3lf", 0, AnyConversion) == ["%-08.3lf"]
    ensures FindAll("%-08.3lf", 0, FloatConversion) == ["%-08.3lf"]
  {
    var s := "%-08.3lf";
    FirstNonSpecAt(s, 1, 7);
    var m := s[1..7];
    assert m[..2] == "-0";
    assert m[2..3] == "8";
    assert m[3..5] == ".3" && m[3..5][1..] == "3";
    assert m[5..] == "l";
    SpecOf(m, 2, 3, 5);
    assert MatchAt(s, 0, AnyConversion) == Some(8);
    assert MatchAt(s, 0, FloatConversion) == Some(8);
    assert s[0..8] == s;
  }
}
