/**
  The small part of Python's string semantics the configuration code relies on:
  `in` between two strings, `str.split(sep)`, the inverse `sep.join(parts)`,
  and `int(text)` for decimal text.
 */
module Text {
  import opened Results

  /* ---------------------------------------------------------------- substrings */

  /** `s` holds a copy of `sub` starting at offset `i`. */
  predicate OccursAt(sub: string, s: string, i: int) {
    0 <= i && i + |sub| <= |s| && s[i..i + |sub|] == sub
  }

  /** Python's `sub in s` for two strings: some offset of `s` starts a copy of `sub`. */
  predicate IsSubstring(sub: string, s: string) {
    exists i | 0 <= i <= |s| :: OccursAt(sub, s, i)
  }

  /** Every character of a substring occurs in the enclosing string. */
  lemma SubstringChars(sub: string, s: string, c: char)
    requires IsSubstring(sub, s)
    requires c in sub
    ensures c in s
  {
    var i :| 0 <= i <= |s| && OccursAt(sub, s, i);
    var k :| 0 <= k < |sub| && sub[k] == c;
    assert s[i + k] == c;
  }

  /* ---------------------------------------------------------- split and join */

  /** Python's `sep.join(parts)`. */
  function Join(parts: seq<string>, sep: char): string
    decreases |parts|
  {
    if |parts| == 0 then ""
    else if |parts| == 1 then parts[0]
    else parts[0] + [sep] + Join(parts[1..], sep)
  }

  /**
    Python's `s.split(sep)` with an explicit one-character separator: the text between
    consecutive separators, empty fields included, so there is always at least one field.
   */
  function Split(s: string, sep: char): (parts: seq<string>)
    ensures |parts| > 0
    ensures forall i :: 0 <= i < |parts| ==> sep !in parts[i]
    ensures Join(parts, sep) == s
    decreases |s|
  {
    if |s| == 0 then [""]
    else
      var rest := Split(s[1..], sep);
      if s[0] == sep then
        var parts := [""] + rest;
        assert parts[1..] == rest;
        parts
      else
        var parts := [[s[0]] + rest[0]] + rest[1..];
        assert |rest| > 1 ==> Join(rest, sep) == rest[0] + [sep] + Join(rest[1..], sep);
        assert parts[1..] == rest[1..];
        parts
  }

  /** Splitting text that starts with a separator-free block `a` puts `a` in front of the first field. */
  lemma {:induction false} SplitAfterPlainBlock(a: string, t: string, sep: char)
    requires sep !in a
    ensures Split(a + t, sep) == [a + Split(t, sep)[0]] + Split(t, sep)[1..]
    decreases |a|
  {
    if |a| == 0 {
      var u := Split(t, sep);
      assert a + t == t;
      assert u == [u[0]] + u[1..];
      assert a + u[0] == u[0];
    } else {
      var u := Split(t, sep);
      SplitAfterPlainBlock(a[1..], t, sep);
      assert a[0] != sep;
      assert (a + t)[0] == a[0];
      assert (a + t)[1..] == a[1..] + t;
      var rest := Split(a[1..] + t, sep);
      assert rest == [a[1..] + u[0]] + u[1..];
      assert Split(a + t, sep) == [[a[0]] + rest[0]] + rest[1..];
      assert [a[0]] + (a[1..] + u[0]) == a + u[0];
    }
  }

  /** Splitting a join of separator-free fields gives the fields back. */
  lemma {:induction false} SplitJoin(parts: seq<string>, sep: char)
    requires |parts| > 0
    requires forall i :: 0 <= i < |parts| ==> sep !in parts[i]
    ensures Split(Join(parts, sep), sep) == parts
    decreases |parts|
  {
    if |parts| == 1 {
      SplitAfterPlainBlock(parts[0], "", sep);
      assert parts[0] + "" == parts[0];
    } else {
      var rest := parts[1..];
      var tail := Join(rest, sep);
      assert Join(parts, sep) == parts[0] + ([sep] + tail);
      SplitJoin(rest, sep);
      SplitLeadingSep(tail, sep);
      SplitAfterPlainBlock(parts[0], [sep] + tail, sep);
      assert parts[0] + "" == parts[0];
      assert parts == [parts[0]] + rest;
    }
  }

  /** A leading separator closes an empty first field. */
  lemma SplitLeadingSep(tail: string, sep: char)
    ensures Split([sep] + tail, sep) == [""] + Split(tail, sep)
  {
    assert ([sep] + tail)[1..] == tail;
  }

  /** A trailing separator adds exactly one empty field at the end. */
  lemma {:induction false} JoinAppendEmpty(parts: seq<string>, sep: char)
    requires |parts| > 0
    ensures Join(parts + [""], sep) == Join(parts, sep) + [sep]
    decreases |parts|
  {
    if |parts| == 1 {
      assert (parts + [""])[1..] == [""];
    } else {
      JoinAppendEmpty(parts[1..], sep);
      assert (parts + [""])[1..] == parts[1..] + [""];
    }
  }

  /** Python's `filter(None, fields)` on strings: keep the non-empty fields, in order. */
  function DropEmpty(fields: seq<string>): (r: seq<string>)
    ensures |r| <= |fields|
    ensures forall i :: 0 <= i < |r| ==> |r[i]| > 0
    decreases |fields|
  {
    if |fields| == 0 then []
    else
      var rest := DropEmpty(fields[1..]);
      if |fields[0]| == 0 then rest else [fields[0]] + rest
  }

  /** `filter(None, …)` keeps exactly the non-empty fields. */
  lemma {:induction false} DropEmptyMembers(fields: seq<string>)
    ensures forall f :: f in DropEmpty(fields) <==> f in fields && |f| > 0
    decreases |fields|
  {
    if |fields| > 0 {
      DropEmptyMembers(fields[1..]);
      assert fields == [fields[0]] + fields[1..];
    }
  }

  /** `filter(None, …)` of one field: the field itself, or nothing when it is empty. */
  lemma DropEmptySingle(f: string)
    ensures DropEmpty([f]) == if |f| > 0 then [f] else []
  {
    assert [f][1..] == [];
  }

  /**
    `filter(None, …)` works field by field: filtering a concatenation concatenates the
    filtered parts, so with `DropEmptySingle` the survivors keep their order and multiplicity.
   */
  lemma {:induction false} DropEmptyAppend(a: seq<string>, b: seq<string>)
    ensures DropEmpty(a + b) == DropEmpty(a) + DropEmpty(b)
    decreases |a|
  {
    if |a| > 0 {
      assert (a + b)[0] == a[0];
      assert (a + b)[1..] == a[1..] + b;
      DropEmptyAppend(a[1..], b);
    } else {
      assert a + b == b;
    }
  }

  /** A list with no empty field is kept unchanged. */
  lemma {:induction false} DropEmptyKeepsNonEmpty(fields: seq<string>)
    requires forall i :: 0 <= i < |fields| ==> |fields[i]| > 0
    ensures DropEmpty(fields) == fields
    decreases |fields|
  {
    if |fields| > 0 {
      DropEmptyKeepsNonEmpty(fields[1..]);
      assert fields == [fields[0]] + fields[1..];
    }
  }

  /** One empty trailing field, as `"0,1,"` splits into, is dropped. */
  lemma {:induction false} DropEmptyLast(fields: seq<string>)
    requires forall i :: 0 <= i < |fields| ==> |fields[i]| > 0
    ensures DropEmpty(fields + [""]) == fields
    decreases |fields|
  {
    var xs := fields + [""];
    if |fields| == 0 {
      assert xs[1..] == [];
    } else {
      var tail := fields[1..];
      assert xs[1..] == tail + [""];
      DropEmptyLast(tail);
      assert fields == [fields[0]] + tail;
    }
  }

  /* ----------------------------------------------------------- whitespace */

  /**
    The characters `int()` skips around a number: the ASCII space and `\t \n \v \f \r`, and
    the non-ASCII characters Python counts as whitespace. The ASCII separators `\x1c`-`\x1f`,
    which `str.strip()` would remove, are not skipped.
   */
  predicate IsSpace(c: char) {
    || c == ' ' || 9 <= c as int <= 13
    || (c as int >= 0x85 && c as int in WideSpaces)
  }

  /** The code points above ASCII that Python counts as whitespace. */
  const WideSpaces: set<int> :=
    {0x85, 0xA0, 0x1680, 0x2000, 0x2001, 0x2002, 0x2003, 0x2004, 0x2005, 0x2006, 0x2007, 0x2008,
     0x2009, 0x200A, 0x2028, 0x2029, 0x202F, 0x205F, 0x3000}

  /** Removes the leading whitespace run. */
  function StripLeft(s: string): (r: string)
    ensures |r| <= |s| && r == s[|s| - |r|..]
    ensures forall i :: 0 <= i < |s| - |r| ==> IsSpace(s[i])
    ensures |r| == 0 || !IsSpace(r[0])
    decreases |s|
  {
    if |s| > 0 && IsSpace(s[0]) then StripLeft(s[1..]) else s
  }

  /** Removes the trailing whitespace run. */
  function StripRight(s: string): (r: string)
    ensures |r| <= |s| && r == s[..|r|]
    ensures forall i :: |r| <= i < |s| ==> IsSpace(s[i])
    ensures |r| == 0 || !IsSpace(r[|r| - 1])
    decreases |s|
  {
    if |s| > 0 && IsSpace(s[|s| - 1]) then StripRight(s[..|s| - 1]) else s
  }

  /** Python's `str.strip()`: both whitespace runs removed. */
  function Strip(s: string): string {
    StripRight(StripLeft(s))
  }

  /** Text without whitespace is left alone by `Strip`. */
  lemma StripNoSpace(s: string)
    requires forall i :: 0 <= i < |s| ==> !IsSpace(s[i])
    ensures Strip(s) == s
  {
    var l := StripLeft(s);
    assert l == s;
  }

  /* --------------------------------------------------------------- integers */

  predicate IsDigit(c: char) {
    '0' <= c <= '9'
  }

  predicate AllDigits(s: string) {
    forall i :: 0 <= i < |s| ==> IsDigit(s[i])
  }

  function DigitValue(c: char): nat
    requires IsDigit(c)
  {
    c as int - '0' as int
  }

  function DigitChar(d: nat): (c: char)
    requires d < 10
    ensures IsDigit(c) && DigitValue(c) == d
  {
    ('0' as int + d) as char
  }

  /** The value of a decimal digit string, most significant digit first. */
  function DigitsValue(s: string): nat
    requires AllDigits(s)
    decreases |s|
  {
    if |s| == 0 then 0 else DigitsValue(s[..|s| - 1]) * 10 + DigitValue(s[|s| - 1])
  }

  /** Decimal text of a natural number; the inverse of `DigitsValue`. */
  function ShowNat(n: nat): (r: string)
    ensures |r| > 0 && AllDigits(r) && DigitsValue(r) == n
    decreases n
  {
    if n < 10 then [DigitChar(n)]
    else
      var front := ShowNat(n / 10);
      var r := front + [DigitChar(n % 10)];
      assert r[..|r| - 1] == front;
      r
  }

  /** Python's `str(n)` for an integer. */
  function ShowInt(n: int): (r: string)
    ensures |r| > 0
    ensures forall i :: 0 <= i < |r| ==> !IsSpace(r[i]) && r[i] != ','
  {
    if n < 0 then "-" + ShowNat(-n) else ShowNat(n)
  }

  /** An optional sign and at least one decimal digit, with nothing around them. */
  function ParseDecimal(t: string): (r: Result<int>)
    ensures r.Ok? ==> exists i :: 0 <= i < |t| && IsDigit(t[i])
    ensures r.Err? ==> r.error == ValueError
  {
    if |t| > 1 && (t[0] == '-' || t[0] == '+') && AllDigits(t[1..]) then
      assert IsDigit(t[1]);
      var v: int := DigitsValue(t[1..]);
      Ok(if t[0] == '-' then -v else v)
    else if |t| > 0 && AllDigits(t) then
      assert IsDigit(t[0]);
      Ok(DigitsValue(t))
    else
      Err(ValueError)
  }

  /**
    Python's `int(text)` in base 10: surrounding whitespace is ignored, then an optional
    sign and at least one digit; anything else raises `ValueError`.
   */
  function ParseInt(s: string): (r: Result<int>)
    ensures |Strip(s)| == 0 ==> r == Err(ValueError)
    ensures r.Ok? ==> exists i :: 0 <= i < |s| && IsDigit(s[i])
    ensures r.Err? ==> r.error == ValueError
  {
    var r := ParseDecimal(Strip(s));
    if r.Ok? then StripKeepsDigit(s); r else r
  }

  /** A digit that survives `Strip` was a digit of the original text. */
  lemma StripKeepsDigit(s: string)
    requires exists j :: 0 <= j < |Strip(s)| && IsDigit(Strip(s)[j])
    ensures exists i :: 0 <= i < |s| && IsDigit(s[i])
  {
    var l := StripLeft(s);
    var t := StripRight(l);
    var j :| 0 <= j < |t| && IsDigit(t[j]);
    assert t[j] == l[j] == s[|s| - |l| + j];
  }

  /** A leading file separator (`\x1c`), which `str.strip()` would remove, makes `int()` fail. */
  lemma ParseIntRejectsSeparator(d: char)
    requires IsDigit(d)
    ensures ParseInt([28 as char, d]) == Err(ValueError)
  {
    var t := [28 as char, d];
    assert StripLeft(t) == t;
    assert StripRight(t) == t;
    assert !IsDigit(t[0]);
  }

  /** A leading whitespace character before one digit is skipped. */
  lemma ParseIntSkipsSpace(c: char, d: char)
    requires IsSpace(c) && IsDigit(d)
    ensures ParseInt([c, d]) == Ok(DigitValue(d))
  {
    var t := [c, d];
    assert !IsSpace(d);
    assert t[1..] == [d];
    assert StripLeft([d]) == [d];
    assert StripLeft(t) == [d];
    assert StripRight([d]) == [d];
    assert Strip(t) == [d];
    DigitValueOfOne(d);
  }

  lemma DigitValueOfOne(d: char)
    requires IsDigit(d)
    ensures ParseDecimal([d]) == Ok(DigitValue(d))
  {
    var t := [d];
    assert AllDigits(t);
    assert !(t[0] == '-' || t[0] == '+');
    assert t[..0] == [];
    assert DigitsValue(t) == DigitsValue(t[..0]) * 10 + DigitValue(t[0]);
  }

  /** A leading no-break space is skipped. */
  lemma ParseIntSkipsNoBreakSpace(d: char)
    requires IsDigit(d)
    ensures ParseInt([0xA0 as char, d]) == Ok(DigitValue(d))
  {
    assert 0xA0 in WideSpaces;
    ParseIntSkipsSpace(0xA0 as char, d);
  }

  /** `int(str(n)) == n`. */
  lemma ParseShowInt(n: int)
    ensures ParseInt(ShowInt(n)) == Ok(n)
  {
    var r := ShowInt(n);
    StripNoSpace(r);
    assert ParseInt(r) == ParseDecimal(r);
    if n < 0 {
      var digits := ShowNat(-n);
      assert r == "-" + digits && r[1..] == digits;
      assert AllDigits(r[1..]) && DigitsValue(r[1..]) == -n;
    } else {
      var digits := ShowNat(n);
      assert r == digits && IsDigit(r[0]);
    }
  }

  /** The text of a list of integers, one field each. */
  function ShowAll(ns: seq<int>): (fields: seq<string>)
    ensures |fields| == |ns|
    ensures forall i :: 0 <= i < |ns| ==> fields[i] == ShowInt(ns[i])
  {
    seq(|ns|, i requires 0 <= i < |ns| => ShowInt(ns[i]))
  }

  /** `','.join(str(n) for n in ns)`. */
  function JoinInts(ns: seq<int>): string {
    Join(ShowAll(ns), ',')
  }

  /** `[int(f) for f in fields]`: the first field that is not an integer raises `ValueError`. */
  function ParseInts(fields: seq<string>): (r: Result<seq<int>>)
    ensures r.Ok? ==> |r.value| == |fields| && forall i :: 0 <= i < |fields| ==> ParseInt(fields[i]) == Ok(r.value[i])
    ensures r.Err? ==> r.error == ValueError && exists i :: 0 <= i < |fields| && ParseInt(fields[i]).Err?
  {
    MapAll(fields, ParseInt)
  }

  /** Parsing the printed form of every integer gives the integers back. */
  lemma ParseShowAll(ns: seq<int>)
    ensures ParseInts(ShowAll(ns)) == Ok(ns)
  {
    forall i | 0 <= i < |ns| {
      ParseShowInt(ns[i]);
    }
    var r := ParseInts(ShowAll(ns));
    assert r.Ok?;
    assert r.value == ns;
  }

  /** The fields of a printed integer list are separator-free and non-empty. */
  lemma ShowAllFields(ns: seq<int>)
    ensures forall i :: 0 <= i < |ns| ==> ',' !in ShowAll(ns)[i] && |ShowAll(ns)[i]| > 0
  {
    forall i | 0 <= i < |ns|
      ensures ',' !in ShowAll(ns)[i]
    {
      var f := ShowAll(ns)[i];
      assert f == ShowInt(ns[i]);
      assert forall k :: 0 <= k < |f| ==> f[k] != ',';
    }
  }
}
