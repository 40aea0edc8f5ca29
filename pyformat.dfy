/** Python's `str.format(**kwargs)` for templates whose replacement fields are plain
    names: `{{` and `}}` stand for one brace, `{name}` for the keyword argument
    `name`, and the arguments are inserted as they are. */
module PyFormat {
  import opened Base

  /** The exceptions `str.format` raises: a malformed format string, a keyword that
      was not passed, and a positional field (`{}` or `{0}`) when no positional
      argument was passed. */
  datatype FormatError = ValueError | KeyError(key: string) | IndexError

  type FormatResult = Result<string, FormatError>

  /** Put `s` in front of a successful result; an error stays the error. */
  function Prepend(s: string, r: FormatResult): FormatResult
  {
    match r
    case Ok(t) => Ok(s + t)
    case Err(e) => Err(e)
  }

  predicate IsBrace(c: char) { c == '{' || c == '}' }

  predicate BraceFree(s: string) { forall i :: 0 <= i < |s| ==> !IsBrace(s[i]) }

  /** A character with a decimal digit value (Unicode general category Nd, as of
      Unicode 15): the characters `str.format` reads as digits of an argument index. */
  predicate IsDecimalDigit(c: char)
  {
    ('0' <= c <= '9') || ('\U{660}' <= c <= '\U{669}') || ('\U{6F0}' <= c <= '\U{6F9}')
    || ('\U{7C0}' <= c <= '\U{7C9}') || ('\U{966}' <= c <= '\U{96F}')
    || ('\U{9E6}' <= c <= '\U{9EF}') || ('\U{A66}' <= c <= '\U{A6F}')
    || ('\U{AE6}' <= c <= '\U{AEF}') || ('\U{B66}' <= c <= '\U{B6F}')
    || ('\U{BE6}' <= c <= '\U{BEF}') || ('\U{C66}' <= c <= '\U{C6F}')
    || ('\U{CE6}' <= c <= '\U{CEF}') || ('\U{D66}' <= c <= '\U{D6F}')
    || ('\U{DE6}' <= c <= '\U{DEF}') || ('\U{E50}' <= c <= '\U{E59}')
    || ('\U{ED0}' <= c <= '\U{ED9}') || ('\U{F20}' <= c <= '\U{F29}')
    || ('\U{1040}' <= c <= '\U{1049}') || ('\U{1090}' <= c <= '\U{1099}')
    || ('\U{17E0}' <= c <= '\U{17E9}') || ('\U{1810}' <= c <= '\U{1819}')
    || ('\U{1946}' <= c <= '\U{194F}') || ('\U{19D0}' <= c <= '\U{19D9}')
    || ('\U{1A80}' <= c <= '\U{1A89}') || ('\U{1A90}' <= c <= '\U{1A99}')
    || ('\U{1B50}' <= c <= '\U{1B59}') || ('\U{1BB0}' <= c <= '\U{1BB9}')
    || ('\U{1C40}' <= c <= '\U{1C49}') || ('\U{1C50}' <= c <= '\U{1C59}')
    || ('\U{A620}' <= c <= '\U{A629}') || ('\U{A8D0}' <= c <= '\U{A8D9}')
    || ('\U{A900}' <= c <= '\U{A909}') || ('\U{A9D0}' <= c <= '\U{A9D9}')
    || ('\U{A9F0}' <= c <= '\U{A9F9}') || ('\U{AA50}' <= c <= '\U{AA59}')
    || ('\U{ABF0}' <= c <= '\U{ABF9}') || ('\U{FF10}' <= c <= '\U{FF19}')
    || ('\U{104A0}' <= c <= '\U{104A9}') || ('\U{10D30}' <= c <= '\U{10D39}')
    || ('\U{11066}' <= c <= '\U{1106F}') || ('\U{110F0}' <= c <= '\U{110F9}')
    || ('\U{11136}' <= c <= '\U{1113F}') || ('\U{111D0}' <= c <= '\U{111D9}')
    || ('\U{112F0}' <= c <= '\U{112F9}') || ('\U{11450}' <= c <= '\U{11459}')
    || ('\U{114D0}' <= c <= '\U{114D9}') || ('\U{11650}' <= c <= '\U{11659}')
    || ('\U{116C0}' <= c <= '\U{116C9}') || ('\U{11730}' <= c <= '\U{11739}')
    || ('\U{118E0}' <= c <= '\U{118E9}') || ('\U{11950}' <= c <= '\U{11959}')
    || ('\U{11C50}' <= c <= '\U{11C59}') || ('\U{11D50}' <= c <= '\U{11D59}')
    || ('\U{11DA0}' <= c <= '\U{11DA9}') || ('\U{11F50}' <= c <= '\U{11F59}')
    || ('\U{16A60}' <= c <= '\U{16A69}') || ('\U{16AC0}' <= c <= '\U{16AC9}')
    || ('\U{16B50}' <= c <= '\U{16B59}') || ('\U{1D7CE}' <= c <= '\U{1D7FF}')
    || ('\U{1E140}' <= c <= '\U{1E149}') || ('\U{1E2F0}' <= c <= '\U{1E2F9}')
    || ('\U{1E4F0}' <= c <= '\U{1E4F9}') || ('\U{1E950}' <= c <= '\U{1E959}')
    || ('\U{1FBF0}' <= c <= '\U{1FBF9}')
  }

  /** The value of a decimal digit character. Every run of Nd digits is ten
      consecutive code points starting at the digit zero; those that start at an
      offset of 6 within their block of 16 are listed, and 0x1D7CE-0x1D7FF holds five
      runs back to back. */
  function DigitValue(c: char): (d: nat)
    requires IsDecimalDigit(c)
    ensures '0' <= c <= '9' ==> d == c as int - '0' as int
  {
    if '\U{1D7CE}' <= c <= '\U{1D7FF}' then (c as int - 0x1D7CE) % 10
    else if ('\U{966}' <= c <= '\U{DEF}') || ('\U{1946}' <= c <= '\U{194F}')
         || ('\U{11066}' <= c <= '\U{1106F}') || ('\U{11136}' <= c <= '\U{1113F}')
    then (c as int - 6) % 16
    else c as int % 16
  }

  /** A field that is empty or made only of decimal digits is a positional argument
      index (an automatic one when empty). */
  predicate IsPositional(name: string) { forall i :: 0 <= i < |name| ==> IsDecimalDigit(name[i]) }

  /** The number a string of decimal digits spells, read in base ten. */
  function IndexValue(name: string): (v: nat)
    requires IsPositional(name)
    ensures name != [] ==> v == 10 * IndexValue(name[..|name| - 1]) + DigitValue(name[|name| - 1])
  {
    if name == [] then 0
    else 10 * IndexValue(name[..|name| - 1]) + DigitValue(name[|name| - 1])
  }

  /** The largest argument index `str.format` can read: `PY_SSIZE_T_MAX` on a 64-bit
      platform. */
  const MaxIndex: nat := 0x7FFF_FFFF_FFFF_FFFF

  /** Length of the field text that follows an opening brace: up to the next brace. */
  function FieldLength(t: string): (n: nat)
    ensures n <= |t|
    ensures BraceFree(t[..n])
    ensures n < |t| ==> IsBrace(t[n])
  {
    if t == [] || IsBrace(t[0]) then 0 else 1 + FieldLength(t[1..])
  }

  /** The scan `str.format` makes of a field name that may be an argument index,
      from the index `acc` accumulated so far: each decimal digit is added on, and
      the scan fails with `ValueError` ("Too many decimal digits") as soon as the
      index passes `PY_SSIZE_T_MAX`; it ends quietly at the first other character. */
  predicate IndexOverflows(name: string, acc: nat)
  {
    if name == [] || !IsDecimalDigit(name[0]) then false
    else
      var next := 10 * acc + DigitValue(name[0]);
      next > MaxIndex || IndexOverflows(name[1..], next)
  }

  /** The value a replacement field stands for. Leading digits past `Py_ssize_t`
      fail with `ValueError`, whatever follows them; otherwise, since no positional
      argument is passed, an argument index fails with `IndexError`, and any other
      name is a keyword. */
  function Lookup(name: string, args: map<string, string>): (r: FormatResult)
    ensures r.Ok? <==> !IndexOverflows(name, 0) && !IsPositional(name) && name in args
    ensures r.Ok? ==> r.value == args[name]
    ensures IndexOverflows(name, 0) ==> r == Err(ValueError)
    ensures !IndexOverflows(name, 0) && IsPositional(name) ==> r == Err(IndexError)
    ensures !IndexOverflows(name, 0) && !IsPositional(name) && name !in args ==> r == Err(KeyError(name))
  {
    if IndexOverflows(name, 0) then Err(ValueError)
    else if IsPositional(name) then Err(IndexError)
    else if name in args then Ok(args[name])
    else Err(KeyError(name))
  }

  function Pow10(k: nat): nat
  {
    if k == 0 then 1 else 10 * Pow10(k - 1)
  }

  /** Scanning `k` nines from index `acc` reaches `(acc + 1) * 10^k - 1`: it fails
      exactly when that passes `PY_SSIZE_T_MAX`, or when the scan of what follows,
      from there, fails. */
  lemma {:induction false} NinesOverflow(s: string, rest: string, acc: nat)
    requires s != [] && forall i :: 0 <= i < |s| ==> s[i] == '9'
    ensures (acc + 1) * Pow10(|s|) >= 1
    ensures IndexOverflows(s + rest, acc) <==>
      (acc + 1) * Pow10(|s|) - 1 > MaxIndex || IndexOverflows(rest, (acc + 1) * Pow10(|s|) - 1)
  {
    var next := 10 * acc + 9;
    assert DigitValue('9') == 9;
    assert (s + rest)[0] == '9' && (s + rest)[1..] == s[1..] + rest;
    if |s| == 1 {
      assert s[1..] + rest == rest;
    } else {
      NinesOverflow(s[1..], rest, next);
      assert (next + 1) * Pow10(|s| - 1) == (acc + 1) * Pow10(|s|);
      assert Pow10(|s| - 1) >= 1 by { Pow10Positive(|s| - 1); }
    }
  }

  lemma {:induction false} Pow10Positive(k: nat)
    ensures Pow10(k) >= 1
  {
    if k > 0 { Pow10Positive(k - 1); }
  }

  /** A name of `k` nines is an argument index: `str.format` raises `ValueError`
      exactly when `10^k - 1` is past `PY_SSIZE_T_MAX`, and `IndexError` otherwise. */
  lemma NinesLookup(s: string, args: map<string, string>)
    requires s != [] && forall i :: 0 <= i < |s| ==> s[i] == '9'
    ensures Lookup(s, args) == if Pow10(|s|) > MaxIndex + 1 then Err(ValueError) else Err(IndexError)
  {
    NinesOverflow(s, [], 0);
    assert s + [] == s;
    assert IsPositional(s);
  }

  lemma Pow10Values()
    ensures Pow10(18) == 1_000_000_000_000_000_000
    ensures Pow10(20) == 100_000_000_000_000_000_000
  {
    assert Pow10(10) == 10_000_000_000;
    assert Pow10(15) == 1_000_000_000_000_000;
  }

  /** `{99999999999999999999}` (twenty nines) is past `PY_SSIZE_T_MAX` and raises
      `ValueError`. */
  lemma IndexOverflowExample(args: map<string, string>)
    ensures Lookup(seq(20, _ => '9'), args) == Err(ValueError)
  {
    Pow10Values();
    NinesLookup(seq(20, _ => '9'), args);
  }

  /** Twenty nines followed by a letter raise `ValueError` too: the digits overflow
      before the scan reaches the letter, so the name is never read as a keyword. */
  lemma LeadingOverflowExample(args: map<string, string>)
    ensures Lookup(seq(20, _ => '9') + "a", args) == Err(ValueError)
  {
    Pow10Values();
    NinesOverflow(seq(20, _ => '9'), "a", 0);
  }

  /** Eighteen nines still fit, so the field reads as an index and raises `IndexError`. */
  lemma IndexInRangeExample(args: map<string, string>)
    ensures Lookup(seq(18, _ => '9'), args) == Err(IndexError)
  {
    Pow10Values();
    NinesLookup(seq(18, _ => '9'), args);
  }

  /** `t.format(**args)`, scanned left to right; the first malformed piece or failed
      lookup is the exception raised, and no partial text is returned. */
  function Format(t: string, args: map<string, string>): (r: FormatResult)
    ensures BraceFree(t) ==> r == Ok(t)
    decreases |t|
  {
    if t == [] then Ok([])
    else if t[0] == '{' && |t| > 1 && t[1] == '{' then Prepend("{", Format(t[2..], args))
    else if t[0] == '}' && |t| > 1 && t[1] == '}' then Prepend("}", Format(t[2..], args))
    else if t[0] == '}' then Err(ValueError)
    else if t[0] == '{' then
      var n := FieldLength(t[1..]);
      if n + 1 == |t| || t[n + 1] == '{' then Err(ValueError)
      else
        match Lookup(t[1..n + 1], args)
        case Err(e) => Err(e)
        case Ok(v) => Prepend(v, Format(t[n + 2..], args))
    else
      assert BraceFree(t) ==> BraceFree(t[1..]) by {
        if BraceFree(t) {
          forall i | 0 <= i < |t| - 1 ensures !IsBrace(t[1..][i]) { assert t[1..][i] == t[i + 1]; }
        }
      }
      assert [t[0]] + t[1..] == t;
      Prepend([t[0]], Format(t[1..], args))
  }

  /** A template read as literal text and named fields: the reference meaning of a
      format string. */
  datatype Token = Text(text: string) | Field(name: string)

  /** A name `str.format` looks up among the keyword arguments: not an argument
      index, and its leading digits, if any, do not overflow. */
  predicate IsKeyword(name: string) { !IsPositional(name) && !IndexOverflows(name, 0) }

  /** Characters that end a field name or start a conversion, a format spec, an
      attribute or an index. */
  predicate IsFieldSyntax(c: char) { c == ':' || c == '!' || c == '.' || c == '[' }

  /** A field name the template may use: a plain keyword. It is not positional, its
      leading digits do not overflow, and it has no braces and none of `:`, `!`, `.`
      or `[`. */
  predicate ValidName(name: string)
  {
    IsKeyword(name) && BraceFree(name)
    && forall i :: 0 <= i < |name| ==> !IsFieldSyntax(name[i])
  }

  /** A name of lower-case letters and underscores is a plain keyword name. */
  lemma LowerNameValid(name: string)
    requires name != [] && forall i :: 0 <= i < |name| ==> 'a' <= name[i] <= 'z' || name[i] == '_'
    ensures ValidName(name)
  {
    assert !IsDecimalDigit(name[0]);
  }

  predicate ValidTokens(ts: seq<Token>)
  {
    forall k :: 0 <= k < |ts| ==> ts[k].Field? ==> ValidName(ts[k].name)
  }

  /** Literal text as it is written in a format string: every brace doubled. */
  function Escape(s: string): (r: string)
    ensures |r| >= |s|
  {
    if s == [] then []
    else (if IsBrace(s[0]) then [s[0], s[0]] else [s[0]]) + Escape(s[1..])
  }

  /** The format string that spells out the tokens. */
  function Source(ts: seq<Token>): string
  {
    if ts == [] then []
    else
      (match ts[0]
       case Text(s) => Escape(s)
       case Field(n) => "{" + n + "}")
      + Source(ts[1..])
  }

  /** Expanding the tokens directly: text as it is, each field by its argument. */
  function Render(ts: seq<Token>, args: map<string, string>): (r: FormatResult)
  {
    if ts == [] then Ok([])
    else
      match ts[0]
      case Text(s) => Prepend(s, Render(ts[1..], args))
      case Field(n) =>
        match Lookup(n, args)
        case Err(e) => Err(e)
        case Ok(v) => Prepend(v, Render(ts[1..], args))
  }

  /** Number of fields called `name` in the tokens. */
  function FieldCount(ts: seq<Token>, name: string): nat
  {
    if ts == [] then 0
    else (if ts[0] == Field(name) then 1 else 0) + FieldCount(ts[1..], name)
  }

  lemma PrependPrepend(a: string, b: string, r: FormatResult)
    ensures Prepend(a, Prepend(b, r)) == Prepend(a + b, r)
  {
    if r.Ok? { assert a + (b + r.value) == (a + b) + r.value; }
  }

  /** A doubled brace comes out of `Format` as one brace. */
  lemma FormatDoubled(c: char, tail: string, args: map<string, string>)
    requires IsBrace(c)
    ensures Format([c, c] + tail, args) == Prepend([c], Format(tail, args))
  {
    assert ([c, c] + tail)[2..] == tail;
  }

  /** Any other character comes out of `Format` as itself. */
  lemma FormatPlain(c: char, tail: string, args: map<string, string>)
    requires !IsBrace(c)
    ensures Format([c] + tail, args) == Prepend([c], Format(tail, args))
  {
    assert ([c] + tail)[1..] == tail;
  }

  /** One escaped character comes out of `Format` as that character. */
  lemma FormatEscapeStep(c: char, s: string, rest: string, args: map<string, string>)
    ensures Format(Escape([c] + s) + rest, args) == Prepend([c], Format(Escape(s) + rest, args))
  {
    var head := if IsBrace(c) then [c, c] else [c];
    var tail := Escape(s) + rest;
    assert ([c] + s)[1..] == s;
    assert Escape([c] + s) == head + Escape(s);
    assert Escape([c] + s) + rest == head + tail;
    if IsBrace(c) {
      FormatDoubled(c, tail, args);
    } else {
      FormatPlain(c, tail, args);
    }
  }

  /** Escaped literal text comes out of `Format` as the original text. */
  lemma {:induction false} FormatEscape(s: string, rest: string, args: map<string, string>)
    ensures Format(Escape(s) + rest, args) == Prepend(s, Format(rest, args))
    decreases |s|
  {
    if s == [] {
      assert Escape(s) + rest == rest;
      match Format(rest, args)
      case Ok(v) => assert [] + v == v;
      case Err(_) =>
    } else {
      FormatEscape(s[1..], rest, args);
      assert [s[0]] + s[1..] == s;
      FormatEscapeStep(s[0], s[1..], rest, args);
      PrependPrepend([s[0]], s[1..], Format(rest, args));
    }
  }

  /** A well-formed field comes out of `Format` as the value of its name. */
  lemma FormatField(name: string, rest: string, args: map<string, string>)
    requires ValidName(name)
    ensures Format("{" + name + "}" + rest, args) ==
      if Lookup(name, args).Ok? then Prepend(Lookup(name, args).value, Format(rest, args))
      else Lookup(name, args)
  {
    var t := "{" + name + "}" + rest;
    assert name != [];
    assert t[1] == name[0];
    var n := FieldLength(t[1..]);
    assert t[1..] == name + "}" + rest;
    assert t[1..][|name|] == '}';
    assert n == |name|;
    assert t[1..n + 1] == name;
    assert t[n + 2..] == rest;
  }

  /** The format string written from the tokens formats to what the tokens render
      to: braces in literal text are collapsed, fields are replaced, nothing else. */
  lemma {:induction false} FormatSource(ts: seq<Token>, args: map<string, string>)
    requires ValidTokens(ts)
    ensures Format(Source(ts), args) == Render(ts, args)
  {
    if ts == [] {
    } else {
      assert ValidTokens(ts[1..]) by {
        forall k | 0 <= k < |ts[1..]| ensures ts[1..][k].Field? ==> ValidName(ts[1..][k].name) {
          assert ts[1..][k] == ts[k + 1];
        }
      }
      FormatSource(ts[1..], args);
      match ts[0]
      case Text(s) =>
        FormatEscape(s, Source(ts[1..]), args);
      case Field(n) =>
        assert ValidName(n);
        assert Source(ts) == "{" + n + "}" + Source(ts[1..]);
        FormatField(n, Source(ts[1..]), args);
    }
  }

  /** Rendering succeeds exactly when every field the tokens use was passed. */
  lemma {:induction false} RenderOk(ts: seq<Token>, args: map<string, string>)
    requires ValidTokens(ts)
    ensures Render(ts, args).Ok? <==> forall k :: 0 <= k < |ts| ==> ts[k].Field? ==> ts[k].name in args
  {
    if ts != [] {
      assert ValidTokens(ts[1..]) by {
        forall k | 0 <= k < |ts[1..]| ensures ts[1..][k].Field? ==> ValidName(ts[1..][k].name) {
          assert ts[1..][k] == ts[k + 1];
        }
      }
      RenderOk(ts[1..], args);
      assert forall k :: 1 <= k < |ts| ==> ts[k] == ts[1..][k - 1];
    }
  }

  /** Rendering a concatenation renders each half and joins the texts. */
  lemma {:induction false} RenderAppend(a: seq<Token>, b: seq<Token>, args: map<string, string>)
    ensures Render(a + b, args) ==
      if Render(a, args).Ok? then Prepend(Render(a, args).value, Render(b, args)) else Render(a, args)
  {
    if a == [] {
      assert a + b == b;
      match Render(b, args)
      case Ok(v) => assert [] + v == v;
      case Err(_) =>
    } else {
      assert (a + b)[0] == a[0];
      assert (a + b)[1..] == a[1..] + b;
      RenderAppend(a[1..], b, args);
      match a[0]
      case Text(s) =>
        if Render(a[1..], args).Ok? { PrependPrepend(s, Render(a[1..], args).value, Render(b, args)); }
      case Field(n) =>
        if Lookup(n, args).Ok? && Render(a[1..], args).Ok? {
          PrependPrepend(Lookup(n, args).value, Render(a[1..], args).value, Render(b, args));
        }
    }
  }

  /** Field occurrences add up over concatenation. */
  lemma FieldCountAppend(a: seq<Token>, b: seq<Token>, name: string)
    ensures FieldCount(a + b, name) == FieldCount(a, name) + FieldCount(b, name)
  {
    if a != [] {
      assert (a + b)[1..] == a[1..] + b;
      FieldCountAppend(a[1..], b, name);
    } else {
      assert a + b == b;
    }
  }
}
