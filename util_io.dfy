/** `IO.path`: parts of a file path joined with the platform's `File.separator`, which
    is passed in as `sep`. The relative form is `JoinWith`: the separator between
    consecutive parts only. */
module IO {
  import opened JavaLang

  /** Every part preceded by `sep`. */
  function Prefixed(parts: seq<string>, sep: string): string
    decreases |parts|
  {
    if |parts| == 0 then "" else sep + parts[0] + Prefixed(parts[1..], sep)
  }

  function TotalLength(parts: seq<string>): nat
    decreases |parts|
  {
    if |parts| == 0 then 0 else |parts[0]| + TotalLength(parts[1..])
  }

  /** `path(absolute, parts...)`: one pass over the parts, appending the separator
      before each part but the first, and before the first too for an absolute path. */
  method Path(absolute: bool, parts: seq<string>, sep: string) returns (s: string)
    ensures s == if absolute then Prefixed(parts, sep) else JoinWith(parts, sep)
  {
    s := "";
    var first := true;
    var i := 0;
    while i < |parts|
      invariant 0 <= i <= |parts|
      invariant first <==> i == 0
      invariant s == if absolute then Prefixed(parts[..i], sep) else JoinWith(parts[..i], sep)
    {
      if !first || absolute {
        s := s + sep;
      }
      if absolute {
        PrefixedSnoc(parts[..i], parts[i], sep);
      } else if i > 0 {
        JoinWithSnoc(parts[..i], parts[i], sep);
      } else {
        assert parts[..1] == [parts[0]];
      }
      assert parts[..i + 1] == parts[..i] + [parts[i]];
      s := s + parts[i];
      first := false;
      i := i + 1;
    }
    assert parts[..i] == parts;
  }

  /** `path(parts...)`, the relative form. */
  method RelativePath(parts: seq<string>, sep: string) returns (s: string)
    ensures s == JoinWith(parts, sep)
  {
    s := Path(false, parts, sep);
  }

  // ------------------------------------------------------------------ lemmas

  /** One more part of a relative path comes after one more separator. */
  lemma {:induction false} JoinWithSnoc(parts: seq<string>, p: string, sep: string)
    requires |parts| > 0
    ensures JoinWith(parts + [p], sep) == JoinWith(parts, sep) + sep + p
    decreases |parts|
  {
    var ps := parts + [p];
    assert ps[1..] == parts[1..] + [p];
    if |parts| == 1 {
      assert ps == [parts[0], p];
      assert ps[1..] == [p];
    } else {
      JoinWithSnoc(parts[1..], p, sep);
      assert JoinWith(ps, sep) == parts[0] + sep + (JoinWith(parts[1..], sep) + sep + p);
    }
  }

  /** One more part of an absolute path comes after its own separator. */
  lemma {:induction false} PrefixedSnoc(parts: seq<string>, p: string, sep: string)
    ensures Prefixed(parts + [p], sep) == Prefixed(parts, sep) + sep + p
    decreases |parts|
  {
    var ps := parts + [p];
    if |parts| == 0 {
      assert ps == [p];
    } else {
      assert ps[1..] == parts[1..] + [p];
      PrefixedSnoc(parts[1..], p, sep);
      assert Prefixed(ps, sep) == sep + parts[0] + (Prefixed(parts[1..], sep) + sep + p);
    }
  }

  /** An absolute path is the relative one with a separator in front, for at least one
      part; with no parts both are empty. */
  lemma {:induction false} AbsoluteIsRooted(parts: seq<string>, sep: string)
    ensures Prefixed(parts, sep) == if |parts| == 0 then "" else sep + JoinWith(parts, sep)
    decreases |parts|
  {
    if |parts| > 1 {
      AbsoluteIsRooted(parts[1..], sep);
      assert Prefixed(parts, sep) == sep + parts[0] + (sep + JoinWith(parts[1..], sep));
    } else if |parts| == 1 {
      assert parts[1..] == [];
    }
  }

  /** The length of a path: the parts plus one separator between each two, or before
      each one when absolute. */
  lemma {:induction false} PathLength(parts: seq<string>, sep: string)
    ensures |Prefixed(parts, sep)| == TotalLength(parts) + |parts| * |sep|
    ensures |parts| > 0 ==> |JoinWith(parts, sep)| == TotalLength(parts) + (|parts| - 1) * |sep|
    decreases |parts|
  {
    if |parts| > 0 {
      PathLength(parts[1..], sep);
      AbsoluteIsRooted(parts, sep);
    }
  }

  /** With the separator "/": three relative parts, and the same parts absolute. */
  lemma ThreeParts()
    ensures JoinWith(["conf", "Catalina", "localhost"], "/") == "conf/Catalina/localhost"
    ensures Prefixed(["conf", "Catalina", "localhost"], "/") == "/conf/Catalina/localhost"
  {
    var ps := ["conf", "Catalina", "localhost"];
    assert ps[1..] == ["Catalina", "localhost"] && ps[1..][1..] == ["localhost"];
  }
}
