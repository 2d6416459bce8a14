/**
 * `summary_repr`: Python's `repr` for the built-in containers and scalars, except that a
 * numpy array is summarised by its type and shape and any other object by its type.
 *
 * Values are modelled as a datatype; a set carries its elements in the order Python
 * iterates them, a dict its items in insertion order. A float carries the text `repr`
 * gives it, since float formatting is not modelled.
 */
module SummaryRepr {
  import opened Results
  import opened Text

  datatype PyValue =
    | PyList(items: seq<PyValue>)
    | PyTuple(items: seq<PyValue>)
    | PyDict(entries: seq<DictEntry>)
    | PySet(items: seq<PyValue>)
    | PyInt(n: int)
    | PyBool(b: bool)
    | PyFloat(floatRepr: string)
    | PyStr(s: string)
    | PyNdArray(shape: seq<nat>)
    | PyNone
    | PyOther(typeName: string)

  datatype DictEntry = DictEntry(key: PyValue, value: PyValue)

  // ---- Integers ----------------------------------------------------------------------

  predicate IsDigit(c: char) {
    '0' <= c <= '9'
  }

  predicate AllDigits(s: string) {
    forall i :: 0 <= i < |s| ==> IsDigit(s[i])
  }

  function DigitChar(d: nat): (c: char)
    requires d < 10
    ensures IsDigit(c)
  {
    ('0' as int + d) as char
  }

  function DigitValue(c: char): (d: nat)
    requires IsDigit(c)
    ensures d < 10 && DigitChar(d) == c
  {
    c as int - '0' as int
  }

  /** The decimal digits of `n`, most significant first, with no leading zero. */
  function NatRepr(n: nat): (r: string)
    ensures r != [] && AllDigits(r)
    ensures r[0] == '0' ==> n == 0
    decreases n
  {
    if n < 10 then [DigitChar(n)] else NatRepr(n / 10) + [DigitChar(n % 10)]
  }

  /** `repr` of a Python `int`. */
  function IntRepr(i: int): string {
    if i < 0 then "-" + NatRepr(-i) else NatRepr(i)
  }

  /** The value of a string of decimal digits. */
  function ParseNat(s: string): nat
    requires AllDigits(s)
  {
    if s == [] then 0 else ParseNat(s[..|s| - 1]) * 10 + DigitValue(s[|s| - 1])
  }

  /** Reads back an integer literal in the form `repr` writes it. */
  function ParseInt(s: string): Option<int> {
    if |s| > 1 && s[0] == '-' && AllDigits(s[1..]) then Some(-(ParseNat(s[1..]) as int))
    else if s != [] && AllDigits(s) then Some(ParseNat(s))
    else None
  }

  lemma {:induction false} ParseNatRepr(n: nat)
    ensures ParseNat(NatRepr(n)) == n
    decreases n
  {
    if n >= 10 {
      var r := NatRepr(n);
      assert r[..|r| - 1] == NatRepr(n / 10);
      ParseNatRepr(n / 10);
    }
  }

  /** The text of an integer reads back as that integer. */
  lemma IntReprRoundTrip(i: int)
    ensures ParseInt(IntRepr(i)) == Some(i)
  {
    if i < 0 {
      NegativeReprRoundTrip(-i);
    } else {
      NatReprRoundTrip(i);
    }
  }

  lemma NatReprRoundTrip(n: nat)
    ensures ParseInt(NatRepr(n)) == Some(n)
  {
    var r := NatRepr(n);
    assert IsDigit(r[0]);
    ParseNatRepr(n);
  }

  lemma NegativeReprRoundTrip(n: nat)
    ensures ParseInt("-" + NatRepr(n)) == Some(-(n as int))
  {
    var r := "-" + NatRepr(n);
    assert r[1..] == NatRepr(n);
    ParseNatRepr(n);
  }

  /** Two integers with the same text are equal. */
  lemma IntReprInjective(i: int, j: int)
    requires IntRepr(i) == IntRepr(j)
    ensures i == j
  {
    IntReprRoundTrip(i);
    IntReprRoundTrip(j);
  }

  // ---- Strings -----------------------------------------------------------------------

  /** The quote `repr` puts around `s` (a double quote exactly when `s` holds a single
      quote and no double quote): it is a quote character, and it occurs in `s` only when
      both quote characters do, so a quote is escaped only then. */
  function QuoteFor(s: string): (q: char)
    ensures q == '"' || q == '\''
    ensures q in s ==> '\'' in s && '"' in s
    ensures q != '\'' ==> '\'' in s
  {
    if '\'' in s && '"' !in s then '"' else '\''
  }

  const HexDigits: string := "0123456789abcdef"

  /** The characters `repr` writes as `\xhh`: the C0 controls other than tab, newline and
      carriage return, DEL, the C1 controls, the no-break space and the soft hyphen. */
  predicate NeedsHexEscape(c: char) {
    c as int < 0x20 || 0x7f <= c as int <= 0xa0 || c as int == 0xad
  }

  /** How `repr` writes one character of a string quoted with `q`. */
  function EscapeChar(c: char, q: char): string {
    if c == q || c == '\\' then ['\\', c]
    else if c == '\t' then "\\t"
    else if c == '\n' then "\\n"
    else if c == '\r' then "\\r"
    else if NeedsHexEscape(c) then ['\\', 'x', HexDigits[c as int / 16], HexDigits[c as int % 16]]
    else [c]
  }

  function Escape(s: string, q: char): string {
    if s == [] then [] else EscapeChar(s[0], q) + Escape(s[1..], q)
  }

  /** `repr` of a Python `str`. */
  function StrRepr(s: string): string {
    var q := QuoteFor(s);
    [q] + Escape(s, q) + [q]
  }

  function HexValue(c: char): Option<nat> {
    if '0' <= c <= '9' then Some(c as int - '0' as int)
    else if 'a' <= c <= 'f' then Some(c as int - 'a' as int + 10)
    else None
  }

  /** Reads one character of a quoted body: the character and how many were consumed. */
  function DecodeChar(s: string): (r: Option<(char, nat)>)
    ensures r.Some? ==> 1 <= r.value.1 <= |s|
  {
    if s == [] then None
    else if s[0] != '\\' then Some((s[0], 1))
    else if |s| < 2 then None
    else if s[1] == 't' then Some(('\t', 2))
    else if s[1] == 'n' then Some(('\n', 2))
    else if s[1] == 'r' then Some(('\r', 2))
    else if s[1] == '\\' || s[1] == '\'' || s[1] == '"' then Some((s[1], 2))
    else if s[1] == 'x' && |s| >= 4 && HexValue(s[2]).Some? && HexValue(s[3]).Some? then
      Some(((16 * HexValue(s[2]).value + HexValue(s[3]).value) as char, 4))
    else None
  }

  /** Reads a quoted body up to the closing quote `q`: the decoded text and what follows. */
  function ScanBody(s: string, q: char): Option<(string, string)>
    decreases |s|
  {
    if s == [] then None
    else if s[0] == q then Some(([], s[1..]))
    else match DecodeChar(s)
      case None => None
      case Some((c, k)) =>
        match ScanBody(s[k..], q)
        case None => None
        case Some((body, rest)) => Some(([c] + body, rest))
  }

  /** Reads a string literal at the front of `s`: the string and what follows it. */
  function ParseStrLiteral(s: string): Option<(string, string)> {
    if s != [] && (s[0] == '\'' || s[0] == '"') then ScanBody(s[1..], s[0]) else None
  }

  lemma HexDigitValue(k: nat)
    requires k < 16
    ensures HexValue(HexDigits[k]) == Some(k)
  {
  }

  /** One escaped character reads back as itself, and never starts with the quote. */
  lemma EscapeCharDecodes(c: char, q: char, rest: string)
    requires q == '\'' || q == '"'
    ensures EscapeChar(c, q)[0] != q
    ensures DecodeChar(EscapeChar(c, q) + rest) == Some((c, |EscapeChar(c, q)|))
  {
    var e := EscapeChar(c, q);
    if !(c == q || c == '\\') && c != '\t' && c != '\n' && c != '\r' && NeedsHexEscape(c) {
      var hi, lo := c as int / 16, c as int % 16;
      HexDigitValue(hi);
      HexDigitValue(lo);
      assert (e + rest)[2] == HexDigits[hi] && (e + rest)[3] == HexDigits[lo];
      assert (16 * hi + lo) as char == c;
    }
  }

  /** The escaped body followed by the closing quote reads back as the original text. */
  lemma {:induction false} ScanEscaped(s: string, q: char, rest: string)
    requires q == '\'' || q == '"'
    ensures ScanBody(Escape(s, q) + [q] + rest, q) == Some((s, rest))
    decreases |s|
  {
    var t := Escape(s, q) + [q] + rest;
    if s == [] {
      assert t == [q] + rest;
    } else {
      var e := EscapeChar(s[0], q);
      var tail := Escape(s[1..], q) + [q] + rest;
      assert t == e + tail;
      EscapeCharDecodes(s[0], q, tail);
      assert t[|e|..] == tail;
      ScanEscaped(s[1..], q, rest);
      assert [s[0]] + s[1..] == s;
    }
  }

  /** The text of a string reads back as that string, whatever follows it. */
  lemma StrReprRoundTrip(s: string, rest: string)
    ensures ParseStrLiteral(StrRepr(s) + rest) == Some((s, rest))
  {
    var q := QuoteFor(s);
    var t := StrRepr(s) + rest;
    assert t[1..] == Escape(s, q) + [q] + rest;
    ScanEscaped(s, q, rest);
  }

  /** Two strings with the same text are equal. */
  lemma StrReprInjective(s: string, t: string)
    requires StrRepr(s) == StrRepr(t)
    ensures s == t
  {
    StrReprRoundTrip(s, []);
    StrReprRoundTrip(t, []);
  }

  /** A character `repr` writes as itself. */
  predicate IsPlainChar(c: char) {
    c != '\'' && c != '"' && c != '\\' && c != '\t' && c != '\n' && c != '\r' && !NeedsHexEscape(c)
  }

  /** A string of plain characters appears between single quotes unchanged. */
  lemma {:induction false} PlainStrRepr(s: string)
    requires forall i :: 0 <= i < |s| ==> IsPlainChar(s[i])
    ensures StrRepr(s) == "'" + s + "'"
  {
    PlainEscape(s);
  }

  lemma {:induction false} PlainEscape(s: string)
    requires forall i :: 0 <= i < |s| ==> IsPlainChar(s[i])
    ensures Escape(s, '\'') == s
  {
    if s != [] {
      PlainEscape(s[1..]);
      assert [s[0]] + s[1..] == s;
    }
  }

  // ---- Values ------------------------------------------------------------------------

  /** `repr(type(x))` for a type with qualified name `qualName`. */
  function TypeRepr(qualName: string): string {
    "<class '" + qualName + "'>"
  }

  /** A tuple's text from the text of its elements: a one-element tuple keeps its comma. */
  function TupleText(parts: seq<string>): string {
    if |parts| == 1 then "(" + parts[0] + ",)" else "(" + JoinStrings(", ", parts) + ")"
  }

  /** `summary_repr(contents)` */
  function Summary(v: PyValue): string
    decreases v
  {
    match v
    case PyList(items) => "[" + JoinStrings(", ", seq(|items|, i requires 0 <= i < |items| => Summary(items[i]))) + "]"
    case PyTuple(items) => TupleText(seq(|items|, i requires 0 <= i < |items| => Summary(items[i])))
    case PyDict(entries) =>
      "{" + JoinStrings(", ", seq(|entries|, i requires 0 <= i < |entries| =>
        Summary(entries[i].key) + ": " + Summary(entries[i].value))) + "}"
    case PySet(items) => "{" + JoinStrings(", ", seq(|items|, i requires 0 <= i < |items| => Summary(items[i]))) + "}"
    case PyInt(n) => IntRepr(n)
    case PyBool(b) => if b then "True" else "False"
    case PyFloat(r) => r
    case PyStr(s) => StrRepr(s)
    case PyNdArray(shape) =>
      TypeRepr("numpy.ndarray") + ".shape=" + TupleText(seq(|shape|, i requires 0 <= i < |shape| => IntRepr(shape[i])))
    case PyNone => TypeRepr("NoneType")
    case PyOther(typeName) => TypeRepr(typeName)
  }

  /** The values Python's own `repr` is modelled for: no numpy array and no other object. */
  predicate IsBuiltin(v: PyValue)
    decreases v
  {
    match v
    case PyList(items) => forall i :: 0 <= i < |items| ==> IsBuiltin(items[i])
    case PyTuple(items) => forall i :: 0 <= i < |items| ==> IsBuiltin(items[i])
    case PyDict(entries) =>
      forall i :: 0 <= i < |entries| ==> IsBuiltin(entries[i].key) && IsBuiltin(entries[i].value)
    case PySet(items) => forall i :: 0 <= i < |items| ==> IsBuiltin(items[i])
    case PyNdArray(_) => false
    case PyOther(_) => false
    case _ => true
  }

  /** Python's `repr` of a built-in value. */
  function Repr(v: PyValue): string
    requires IsBuiltin(v)
    decreases v
  {
    match v
    case PyList(items) => "[" + JoinStrings(", ", seq(|items|, i requires 0 <= i < |items| => Repr(items[i]))) + "]"
    case PyTuple(items) => TupleText(seq(|items|, i requires 0 <= i < |items| => Repr(items[i])))
    case PyDict(entries) =>
      "{" + JoinStrings(", ", seq(|entries|, i requires 0 <= i < |entries| =>
        Repr(entries[i].key) + ": " + Repr(entries[i].value))) + "}"
    case PySet(items) =>
      if items == [] then "set()"
      else "{" + JoinStrings(", ", seq(|items|, i requires 0 <= i < |items| => Repr(items[i]))) + "}"
    case PyInt(n) => IntRepr(n)
    case PyBool(b) => if b then "True" else "False"
    case PyFloat(r) => r
    case PyStr(s) => StrRepr(s)
    case PyNone => "None"
  }

  /** Built-in values on which the two printers agree: no `None` and no empty set. */
  predicate IsReprLike(v: PyValue)
    decreases v
  {
    match v
    case PyList(items) => forall i :: 0 <= i < |items| ==> IsReprLike(items[i])
    case PyTuple(items) => forall i :: 0 <= i < |items| ==> IsReprLike(items[i])
    case PyDict(entries) =>
      forall i :: 0 <= i < |entries| ==> IsReprLike(entries[i].key) && IsReprLike(entries[i].value)
    case PySet(items) => items != [] && forall i :: 0 <= i < |items| ==> IsReprLike(items[i])
    case PyNdArray(_) => false
    case PyOther(_) => false
    case PyNone => false
    case _ => true
  }

  lemma {:induction false} ReprLikeIsBuiltin(v: PyValue)
    requires IsReprLike(v)
    ensures IsBuiltin(v)
    decreases v
  {
    match v
    case PyList(items) =>
      forall i | 0 <= i < |items| ensures IsBuiltin(items[i]) { ReprLikeIsBuiltin(items[i]); }
    case PyTuple(items) =>
      forall i | 0 <= i < |items| ensures IsBuiltin(items[i]) { ReprLikeIsBuiltin(items[i]); }
    case PySet(items) =>
      forall i | 0 <= i < |items| ensures IsBuiltin(items[i]) { ReprLikeIsBuiltin(items[i]); }
    case PyDict(entries) =>
      forall i | 0 <= i < |entries| ensures IsBuiltin(entries[i].key) && IsBuiltin(entries[i].value) {
        ReprLikeIsBuiltin(entries[i].key);
        ReprLikeIsBuiltin(entries[i].value);
      }
    case _ =>
  }

  /** Away from `None`, empty sets, numpy arrays and other objects, the summary is `repr`. */
  lemma {:induction false} SummaryIsRepr(v: PyValue)
    requires IsReprLike(v)
    ensures IsBuiltin(v) && Summary(v) == Repr(v)
    decreases v
  {
    ReprLikeIsBuiltin(v);
    match v
    case PyList(items) =>
      forall i | 0 <= i < |items| ensures Summary(items[i]) == Repr(items[i]) { SummaryIsRepr(items[i]); }
      assert seq(|items|, i requires 0 <= i < |items| => Summary(items[i]))
          == seq(|items|, i requires 0 <= i < |items| => Repr(items[i]));
    case PyTuple(items) =>
      forall i | 0 <= i < |items| ensures Summary(items[i]) == Repr(items[i]) { SummaryIsRepr(items[i]); }
      assert seq(|items|, i requires 0 <= i < |items| => Summary(items[i]))
          == seq(|items|, i requires 0 <= i < |items| => Repr(items[i]));
    case PySet(items) =>
      forall i | 0 <= i < |items| ensures Summary(items[i]) == Repr(items[i]) { SummaryIsRepr(items[i]); }
      assert seq(|items|, i requires 0 <= i < |items| => Summary(items[i]))
          == seq(|items|, i requires 0 <= i < |items| => Repr(items[i]));
    case PyDict(entries) =>
      forall i | 0 <= i < |entries|
        ensures Summary(entries[i].key) == Repr(entries[i].key)
        ensures Summary(entries[i].value) == Repr(entries[i].value)
      {
        SummaryIsRepr(entries[i].key);
        SummaryIsRepr(entries[i].value);
      }
      assert seq(|entries|, i requires 0 <= i < |entries| => Summary(entries[i].key) + ": " + Summary(entries[i].value))
          == seq(|entries|, i requires 0 <= i < |entries| => Repr(entries[i].key) + ": " + Repr(entries[i].value));
    case _ =>
  }

  /** An empty set is summarised like an empty dict, unlike `repr`, which writes `set()`. */
  lemma EmptySetLooksLikeEmptyDict()
    ensures Summary(PySet([])) == Summary(PyDict([])) == "{}"
    ensures Repr(PySet([])) == "set()" && Repr(PyDict([])) == "{}"
  {
  }

  /** `None` is not among the kinds passed to `repr`: it is summarised by its type. */
  lemma NoneIsSummarisedByType()
    ensures Summary(PyNone) == "<class 'NoneType'>"
    ensures Repr(PyNone) == "None"
  {
  }

  /** The tuple of an array's dimensions. */
  function ShapeTuple(shape: seq<nat>): PyValue
  {
    PyTuple(seq(|shape|, i requires 0 <= i < |shape| => PyInt(shape[i])))
  }

  /** An array is summarised by its type followed by the summary of its shape tuple. */
  lemma NdArraySummary(shape: seq<nat>)
    ensures Summary(PyNdArray(shape)) == TypeRepr("numpy.ndarray") + ".shape=" + Summary(ShapeTuple(shape))
  {
    var t := ShapeTuple(shape);
    assert seq(|shape|, i requires 0 <= i < |shape| => IntRepr(shape[i]))
        == seq(|t.items|, i requires 0 <= i < |t.items| => Summary(t.items[i]));
  }

  /** A one-element tuple is written with a trailing comma. */
  lemma SingletonTuple(x: PyValue)
    ensures Summary(PyTuple([x])) == "(" + Summary(x) + ",)"
  {
  }
}
