/** `Console.JarFilenameFilter.accept`: which jar files of a Tomcat installation go on
    the class path. Java's `matches` is a whole-string match and `\w` is the ASCII word
    class `[a-zA-Z0-9_]`. */
module JarFilter {
  import opened JavaLang

  /** `catalina(\-\w+)?\.jar`. */
  predicate MatchesCatalina(name: string)
  {
    name == "catalina.jar"
    || (StartsWith(name, "catalina-") && EndsWith(name, ".jar") && |name| >= 13 && IsWord(name[9..|name| - 4]))
  }

  /** `tomcat\-\w+?\.jar`; the reluctant quantifier matches the same whole strings. */
  predicate MatchesTomcat(name: string)
  {
    StartsWith(name, "tomcat-") && EndsWith(name, ".jar") && |name| >= 11 && IsWord(name[7..|name| - 4])
  }

  /** `\w+\-api.jar`, whose unescaped `.` matches any character. */
  predicate MatchesApi(name: string)
  {
    |name| >= 9 && EndsWith(name, "jar") && name[|name| - 8..|name| - 4] == "-api" && IsWord(name[..|name| - 8])
  }

  /** `accept(dir, name)`: a ".jar" name matching one of the three patterns. */
  function Accept(name: string): (r: bool)
    ensures r ==> EndsWith(name, ".jar")
  {
    if !EndsWith(name, ".jar") then false
    else if MatchesCatalina(name) then true
    else if MatchesTomcat(name) then true
    else if MatchesApi(name) then true
    else false
  }

  // ------------------------------------------------------------------ lemmas

  /** The accepted names, each shape with the word it carries: "catalina.jar",
      "catalina-W.jar", "tomcat-W.jar" and "W-api.jar". */
  lemma AcceptedShapes(w: string)
    requires IsWord(w)
    ensures Accept("catalina.jar")
    ensures Accept("catalina-" + w + ".jar")
    ensures Accept("tomcat-" + w + ".jar")
    ensures Accept(w + "-api.jar")
  {
    var c := "catalina-" + w + ".jar";
    assert c[..9] == "catalina-" && c[|c| - 4..] == ".jar" && c[9..|c| - 4] == w;
    var t := "tomcat-" + w + ".jar";
    assert t[..7] == "tomcat-" && t[|t| - 4..] == ".jar" && t[7..|t| - 4] == w;
    var a := w + "-api.jar";
    assert a[|a| - 4..] == ".jar" && a[|a| - 3..] == "jar" && a[|a| - 8..|a| - 4] == "-api" && a[..|a| - 8] == w;
  }

  /** Conversely, an accepted name has one of those shapes: the `.` of the api pattern
      is forced to be a dot by the ".jar" test in front of it. */
  lemma AcceptedOnlyShapes(name: string)
    requires Accept(name)
    ensures || name == "catalina.jar"
            || (|name| >= 13 && name == "catalina-" + name[9..|name| - 4] + ".jar" && IsWord(name[9..|name| - 4]))
            || (|name| >= 11 && name == "tomcat-" + name[7..|name| - 4] + ".jar" && IsWord(name[7..|name| - 4]))
            || (|name| >= 9 && name == name[..|name| - 8] + "-api.jar" && IsWord(name[..|name| - 8]))
  {
    if MatchesCatalina(name) && name != "catalina.jar" {
      Framed(name, "catalina-", ".jar");
    } else if MatchesTomcat(name) {
      Framed(name, "tomcat-", ".jar");
    } else if MatchesApi(name) {
      var n := |name|;
      assert name[n - 4..] == ".jar";
      assert name[n - 8..] == name[n - 8..n - 4] + name[n - 4..];
      Framed(name, "", "-api.jar");
    }
  }

  /** A name that starts with `p` and ends with `s`, with room for both, is `p`, its
      middle and `s`. */
  lemma Framed(name: string, p: string, s: string)
    requires |name| >= |p| + |s| && StartsWith(name, p) && EndsWith(name, s)
    ensures name == p + name[|p|..|name| - |s|] + s
  {
    var n := |name|;
    assert name == name[..|p|] + name[|p|..n - |s|] + name[n - |s|..];
  }

  /** A hyphen is not a word character, so "tomcat-a-b.jar" is turned away. */
  lemma RejectsHyphenatedWord()
    ensures !Accept("tomcat-a-b.jar")
  {
    var t := "tomcat-a-b.jar";
    assert t[7..|t| - 4] == "a-b" && !IsWordChar(t[7..|t| - 4][1]);
    assert t[..9] == "tomcat-a-" && t[|t| - 8..|t| - 4] == "-a-b";
  }

  /** The word after "catalina-" may not be empty. */
  lemma RejectsEmptyWord()
    ensures !Accept("catalina-.jar")
  {
    var c := "catalina-.jar";
    assert c[..7] == "catalin" && c[|c| - 8..|c| - 4] == "ina-";
  }

  /** The api pattern's wildcard alone does not let "servlet-apiXjar" through: the
      ".jar" test comes first. */
  lemma ApiWildcardNeedsDot()
    ensures MatchesApi("servlet-apiXjar") && !Accept("servlet-apiXjar")
  {
    var s := "servlet-apiXjar";
    assert s[|s| - 4..] != ".jar";
    assert s[..|s| - 8] == "servlet" && s[|s| - 8..|s| - 4] == "-api" && s[|s| - 3..] == "jar";
  }

  /** Any other jar, such as "commons-logging.jar", is turned away. */
  lemma RejectsOtherJars()
    ensures !Accept("commons-logging.jar")
  {
    var l := "commons-logging.jar";
    assert l[..7] == "commons" && l[..9] == "commons-l";
    assert l[|l| - 8..|l| - 4] == "ging";
  }
}
