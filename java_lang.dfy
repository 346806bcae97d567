/** The few pieces of Java's runtime semantics the command engine relies on:
    null, exceptions, and the String/Integer/Long library calls it makes.
    Java integers are fixed-width and Java division truncates toward zero;
    both are written out here because Dafny's `int` is unbounded and its `/`
    is Euclidean. */
module JavaLang {

  /** A Java reference that may be null. */
  datatype Nullable<+T> = Null | NonNull(value: T)

  /** The exception classes the engine throws, catches or wraps. */
  datatype ExceptionKind =
    | IllegalArgument
    | NullPointer
    | IndexOutOfBounds
    | NoSuchElement
    | NumberFormat
    | Arithmetic
    | IOFailure
    | MalformedObjectName
    | Runtime
    | ClassCast
    | Command

  /** Text as the program produces it: literal, or looked up in a resource bundle by
      key and arguments (the bundles' contents are not part of this model). */
  datatype Message = Text(text: string) | Resource(key: string, args: seq<string>)

  /** A thrown exception; `getMessage()` may be null. */
  datatype Exception = Exception(kind: ExceptionKind, message: Nullable<Message>)

  /** A Java call that either returns a value or throws. */
  datatype Result<+T> = Ok(value: T) | Err(error: Exception)

  function Throw<T>(kind: ExceptionKind, message: string): Result<T>
  {
    Err(Exception(kind, NonNull(Text(message))))
  }

  // ---------------------------------------------------------------- strings

  predicate StartsWith(s: string, prefix: string)
  {
    |prefix| <= |s| && s[..|prefix|] == prefix
  }

  predicate EndsWith(s: string, suffix: string)
  {
    |suffix| <= |s| && s[|s| - |suffix|..] == suffix
  }

  /** String.indexOf(char): the first position of `c`, or -1. */
  function IndexOf(s: string, c: char): (i: int)
    ensures -1 <= i < |s|
    ensures i == -1 <==> c !in s
    ensures 0 <= i ==> s[i] == c && c !in s[..i]
  {
    if |s| == 0 then -1
    else if s[0] == c then 0
    else
      var k := IndexOf(s[1..], c);
      assert s[1..][..(if k < 0 then 0 else k)] == s[1..1 + (if k < 0 then 0 else k)];
      if k < 0 then -1 else k + 1
  }

  /** Cuts `s` at every occurrence of `sep`, keeping empty pieces. */
  function Pieces(s: string, sep: char): (r: seq<string>)
    ensures |r| >= 1
    decreases |s|
  {
    var i := IndexOf(s, sep);
    if i < 0 then [s] else [s[..i]] + Pieces(s[i + 1..], sep)
  }

  /** Joining the pieces back with the separator gives the string again. */
  lemma {:induction false} JoinPieces(s: string, sep: char)
    ensures JoinWith(Pieces(s, sep), [sep]) == s
    decreases |s|
  {
    var i := IndexOf(s, sep);
    if i >= 0 {
      var rest := Pieces(s[i + 1..], sep);
      JoinPieces(s[i + 1..], sep);
      assert ([s[..i]] + rest)[1..] == rest;
      assert s == s[..i] + [sep] + s[i + 1..];
    }
  }

  /** Conversely, pieces free of the separator come back from their join. */
  lemma {:induction false} PiecesOfJoin(ps: seq<string>, sep: char)
    requires |ps| >= 1
    requires forall k :: 0 <= k < |ps| ==> sep !in ps[k]
    ensures Pieces(JoinWith(ps, [sep]), sep) == ps
    decreases |ps|
  {
    if |ps| == 1 {
      assert IndexOf(ps[0], sep) == -1;
    } else {
      var a, b := ps[0], JoinWith(ps[1..], [sep]);
      var s := a + [sep] + b;
      assert JoinWith(ps, [sep]) == s;
      assert s[|a|] == sep;
      var i := IndexOf(s, sep);
      assert i == |a|;
      assert s[..i] == a && s[i + 1..] == b;
      PiecesOfJoin(ps[1..], sep);
    }
  }

  function DropTrailingEmpty(ps: seq<string>): (r: seq<string>)
    ensures |r| <= |ps|
  {
    if |ps| == 0 then []
    else if ps[|ps| - 1] == "" then DropTrailingEmpty(ps[..|ps| - 1])
    else ps
  }

  /** What is dropped is a run of empty strings at the end, and what is kept is a
      prefix that does not end with one. */
  lemma {:induction false} DropTrailingEmptyShape(ps: seq<string>)
    ensures var r := DropTrailingEmpty(ps);
            && r == ps[..|r|]
            && (|r| > 0 ==> r[|r| - 1] != "")
            && (forall k :: |r| <= k < |ps| ==> ps[k] == "")
    decreases |ps|
  {
    if |ps| > 0 && ps[|ps| - 1] == "" {
      DropTrailingEmptyShape(ps[..|ps| - 1]);
    }
  }

  /** String.split with a one-character pattern: no occurrence gives the whole
      string; otherwise the pieces with trailing empty strings removed. */
  function Split(s: string, sep: char): seq<string>
  {
    if sep !in s then [s] else DropTrailingEmpty(Pieces(s, sep))
  }

  /** `a.compareTo(b) <= 0` for strings: the first differing character decides, and a
      prefix comes before the longer string. */
  predicate NotAfter(a: string, b: string)
    decreases |a|
  {
    |a| == 0 || (|b| > 0 && (a[0] < b[0] || (a[0] == b[0] && NotAfter(a[1..], b[1..]))))
  }

  lemma {:induction false} NotAfterTotal(a: string, b: string)
    ensures NotAfter(a, b) || NotAfter(b, a)
    decreases |a|
  {
    if |a| > 0 && |b| > 0 && a[0] == b[0] {
      NotAfterTotal(a[1..], b[1..]);
    }
  }

  lemma {:induction false} NotAfterAntisymmetric(a: string, b: string)
    requires NotAfter(a, b) && NotAfter(b, a)
    ensures a == b
    decreases |a|
  {
    if |a| > 0 {
      NotAfterAntisymmetric(a[1..], b[1..]);
      assert a == [a[0]] + a[1..] && b == [b[0]] + b[1..];
    }
  }

  lemma {:induction false} NotAfterTransitive(a: string, b: string, c: string)
    requires NotAfter(a, b) && NotAfter(b, c)
    ensures NotAfter(a, c)
    decreases |a|
  {
    if |a| > 0 && a[0] == b[0] && b[0] == c[0] {
      NotAfterTransitive(a[1..], b[1..], c[1..]);
    }
  }

  /** Strings in `compareTo` order. */
  predicate Ascending(ns: seq<string>)
  {
    forall i, j :: 0 <= i < j < |ns| ==> NotAfter(ns[i], ns[j])
  }

  /** The characters matched by the regular-expression class `\w`. */
  predicate IsWordChar(c: char)
  {
    ('a' <= c <= 'z') || ('A' <= c <= 'Z') || ('0' <= c <= '9') || c == '_'
  }

  /** `\w+`: one or more word characters. */
  predicate IsWord(s: string)
  {
    |s| > 0 && forall i :: 0 <= i < |s| ==> IsWordChar(s[i])
  }

  /** The characters matched by the regular-expression class `\s`. */
  predicate IsWhitespace(c: char)
  {
    c == ' ' || c == '\t' || c == '\n' || c == '\U{0B}' || c == '\U{0C}' || c == '\r'
  }

  function DropWhitespace(s: string): (r: string)
    ensures |r| <= |s| && r == s[|s| - |r|..]
    ensures |r| > 0 ==> !IsWhitespace(r[0])
  {
    if |s| > 0 && IsWhitespace(s[0]) then DropWhitespace(s[1..]) else s
  }

  /** replaceAll("[\\s ]+", " "): every maximal run of whitespace becomes one space. */
  function CollapseWhitespace(s: string): (r: string)
    ensures |r| <= |s|
    decreases |s|
  {
    if |s| == 0 then ""
    else if IsWhitespace(s[0]) then " " + CollapseWhitespace(DropWhitespace(s[1..]))
    else [s[0]] + CollapseWhitespace(s[1..])
  }

  /** After the collapse the only whitespace left is single spaces, and the result
      starts with a space exactly when the input starts with whitespace. */
  lemma {:induction false} CollapseShape(s: string)
    ensures var r := CollapseWhitespace(s);
            (forall k :: 0 <= k < |r| ==> (IsWhitespace(r[k]) ==> r[k] == ' '))
            && (forall k :: 0 <= k < |r| - 1 ==> !(r[k] == ' ' && r[k + 1] == ' '))
            && (|r| > 0 ==> (r[0] == ' ' <==> IsWhitespace(s[0])))
    decreases |s|
  {
    if |s| > 0 {
      if IsWhitespace(s[0]) {
        CollapseShape(DropWhitespace(s[1..]));
      } else {
        CollapseShape(s[1..]);
      }
    }
  }

  /** ASCII case folding, as Character.toLowerCase does for ASCII letters. */
  function Lower(c: char): char
  {
    if 'A' <= c <= 'Z' then (c as int + 32) as char else c
  }

  /** String.equalsIgnoreCase on a possibly null argument. */
  predicate EqualsIgnoreCase(a: string, b: Nullable<string>)
  {
    b.NonNull? && |a| == |b.value| && forall k :: 0 <= k < |a| ==> Lower(a[k]) == Lower(b.value[k])
  }

  /** The string with every character folded by `Lower`. */
  function Folded(s: string): (r: string)
    ensures |r| == |s| && forall k :: 0 <= k < |s| ==> r[k] == Lower(s[k])
  {
    if s == [] then [] else [Lower(s[0])] + Folded(s[1..])
  }

  /** Against an already folded text, `equalsIgnoreCase` is equality after folding. */
  lemma IgnoreCaseFolded(a: string, s: string)
    requires Folded(a) == a
    ensures EqualsIgnoreCase(a, NonNull(s)) <==> Folded(s) == a
  {
    if EqualsIgnoreCase(a, NonNull(s)) {
      assert forall k :: 0 <= k < |s| ==> Folded(s)[k] == a[k] by {
        forall k | 0 <= k < |s| ensures Folded(s)[k] == a[k] {
          assert Lower(a[k]) == Folded(a)[k];
        }
      }
    }
    if Folded(s) == a {
      forall k | 0 <= k < |a| ensures Lower(a[k]) == Lower(s[k]) {
        assert Lower(a[k]) == Folded(a)[k] == a[k];
        assert Folded(s)[k] == Lower(s[k]);
      }
    }
  }

  /** Boolean.parseBoolean: true exactly for "true" in any case. */
  predicate ParseBoolean(s: Nullable<string>)
  {
    EqualsIgnoreCase("true", s)
  }

  // --------------------------------------------------------------- integers

  const IntMin: int := -0x8000_0000
  const IntMax: int := 0x7FFF_FFFF
  const LongMin: int := -0x8000_0000_0000_0000
  const LongMax: int := 0x7FFF_FFFF_FFFF_FFFF

  /** Two's-complement wrap-around of a 32-bit `int`. */
  function Wrap32(x: int): (r: int)
    ensures IntMin <= r <= IntMax
    ensures IntMin <= x <= IntMax ==> r == x
  {
    (x - IntMin) % 0x1_0000_0000 + IntMin
  }

  /** Two's-complement wrap-around of a 64-bit `long`. */
  function Wrap64(x: int): (r: int)
    ensures LongMin <= r <= LongMax
    ensures LongMin <= x <= LongMax ==> r == x
  {
    (x - LongMin) % 0x1_0000_0000_0000_0000 + LongMin
  }

  function Abs(x: int): nat
  {
    if x < 0 then -x else x
  }

  /** Java's `/`: the quotient truncated toward zero. */
  function TruncDiv(a: int, b: int): (q: int)
    requires b != 0
    ensures Abs(q) == Abs(a) / Abs(b)
    ensures (a < 0) == (b < 0) ==> q >= 0
    ensures (a < 0) != (b < 0) ==> q <= 0
  {
    var x: nat := Abs(a);
    var y: nat := Abs(b);
    assert y > 0;
    var m: nat := x / y;
    if (a < 0) != (b < 0) then 0 - m else m + 0
  }

  predicate IsDigit(c: char)
  {
    '0' <= c <= '9'
  }

  function DigitsValue(s: string): nat
    requires forall k :: 0 <= k < |s| ==> IsDigit(s[k])
  {
    if |s| == 0 then 0
    else
      assert IsDigit(s[|s| - 1]);
      var d: nat := s[|s| - 1] as int - '0' as int;
      DigitsValue(s[..|s| - 1]) * 10 + d
  }

  /** Integer.parseInt: an optional sign and at least one decimal digit whose value
      fits in 32 bits; anything else, null included, is a NumberFormatException. */
  function ParseInt(s: Nullable<string>): (r: Result<int>)
    ensures r.Ok? ==> IntMin <= r.value <= IntMax
    ensures s.Null? ==> r.Err? && r.error.kind == NumberFormat
  {
    if s.Null? then Throw(NumberFormat, "null")
    else
      var t := s.value;
      var negative := |t| > 0 && t[0] == '-';
      var digits := if |t| > 0 && (t[0] == '-' || t[0] == '+') then t[1..] else t;
      if |digits| == 0 || !(forall k :: 0 <= k < |digits| ==> IsDigit(digits[k])) then
        Throw(NumberFormat, "For input string: \"" + t + "\"")
      else
        var n: int := DigitsValue(digits);
        var v := if negative then -n else n;
        if v < IntMin || IntMax < v then Throw(NumberFormat, "For input string: \"" + t + "\"")
        else Ok(v)
  }

  function DigitChar(d: int): char
    requires 0 <= d < 10
  {
    ('0' as int + d) as char
  }

  function NaturalString(n: nat): (r: string)
    ensures |r| >= 1
    ensures forall k :: 0 <= k < |r| ==> IsDigit(r[k])
  {
    if n < 10 then [DigitChar(n)] else NaturalString(n / 10) + [DigitChar(n % 10)]
  }

  /** Long.toString / StringBuilder.append(long). */
  function DecimalString(n: int): string
  {
    if n < 0 then "-" + NaturalString(-n) else NaturalString(n)
  }

  /** Arrays.toString(String[]): "[a, b, c]". */
  function ArrayString(items: seq<string>): string
  {
    "[" + JoinWith(items, ", ") + "]"
  }

  function JoinWith(items: seq<string>, sep: string): string
  {
    if |items| == 0 then ""
    else if |items| == 1 then items[0]
    else items[0] + sep + JoinWith(items[1..], sep)
  }
}
