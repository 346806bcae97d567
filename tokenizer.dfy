/** The tokenising rules shared by every revision of `parseArguments` and by the
    command-line value classes: a single argument holding a space is collapsed and
    re-split, one "--interactive" marker is removed, and the remaining tokens are
    partitioned into options ('-'-prefixed) and arguments, each in order. */
module Tokenizer {
  import opened JavaLang

  const InteractiveMarker: string := "--interactive"

  const DefaultPrompt: string := "> "

  /** Every `setPrompt`: null or empty selects the default prompt "> ". */
  function PromptOrDefault(p: Nullable<string>): (r: string)
    ensures r != ""
    ensures p.NonNull? && p.value != "" ==> r == p.value
    ensures p.Null? || p.value == "" ==> r == DefaultPrompt
  {
    if p.Null? || p.value == "" then DefaultPrompt else p.value
  }

  /** `argArray.length == 1 && argArray[0].indexOf(' ') > -1` triggers the re-split. */
  predicate NeedsResplit(args: seq<string>)
  {
    |args| == 1 && ' ' in args[0]
  }

  /** The argument array after the optional collapse-and-split of a single spaced argument. */
  function Normalize(args: seq<string>): seq<string>
  {
    if NeedsResplit(args) then Split(CollapseWhitespace(args[0]), ' ') else args
  }

  /** `List.remove(Object)`: drops the first occurrence of `x`, if any. */
  function RemoveFirst(ts: seq<string>, x: string): (r: seq<string>)
    ensures x !in ts ==> r == ts
    ensures x in ts ==> |r| == |ts| - 1
  {
    if |ts| == 0 then []
    else if ts[0] == x then ts[1..]
    else [ts[0]] + RemoveFirst(ts[1..], x)
  }

  /** Exactly the first occurrence goes; everything else keeps its order. */
  lemma {:induction false} RemoveFirstAt(ts: seq<string>, x: string, i: nat)
    requires i < |ts| && ts[i] == x && x !in ts[..i]
    ensures RemoveFirst(ts, x) == ts[..i] + ts[i + 1..]
  {
    if i == 0 {
      assert RemoveFirst(ts, x) == ts[1..];
    } else {
      var t := ts[1..];
      assert ts[0] != x by {
        assert ts[..i][0] == ts[0];
      }
      var u := t[..i - 1];
      assert x !in u by {
        forall k | 0 <= k < |u| ensures u[k] != x {
          assert u[k] == ts[..i][k + 1];
        }
      }
      RemoveFirstAt(t, x, i - 1);
      assert RemoveFirst(ts, x) == [ts[0]] + RemoveFirst(t, x);
      assert ts[..i] == [ts[0]] + t[..i - 1];
      assert ts[i + 1..] == t[i..];
    }
  }

  /** Removing the marker loses that one token and nothing else. */
  lemma RemoveFirstCount(ts: seq<string>, x: string, i: nat)
    requires i < |ts| && ts[i] == x && x !in ts[..i]
    ensures multiset(RemoveFirst(ts, x)) + multiset{x} == multiset(ts)
  {
    RemoveFirstAt(ts, x, i);
    assert ts == ts[..i] + [x] + ts[i + 1..];
  }

  /** `arg.startsWith("-")`. */
  predicate IsOptionToken(t: string)
  {
    |t| > 0 && t[0] == '-'
  }

  /** The '-'-prefixed tokens, in order. */
  function OptionTokens(ts: seq<string>): (r: seq<string>)
    ensures forall k :: 0 <= k < |r| ==> IsOptionToken(r[k])
  {
    if |ts| == 0 then []
    else OptionTokens(ts[..|ts| - 1]) + (if IsOptionToken(ts[|ts| - 1]) then [ts[|ts| - 1]] else [])
  }

  /** The other tokens, in order. */
  function ArgumentTokens(ts: seq<string>): (r: seq<string>)
    ensures forall k :: 0 <= k < |r| ==> !IsOptionToken(r[k])
  {
    if |ts| == 0 then []
    else ArgumentTokens(ts[..|ts| - 1]) + (if IsOptionToken(ts[|ts| - 1]) then [] else [ts[|ts| - 1]])
  }

  /** The token list `parseArguments` partitions, and whether it removed the marker. */
  function Tokens(args: seq<string>): seq<string>
  {
    RemoveFirst(Normalize(args), InteractiveMarker)
  }

  predicate SawInteractive(args: seq<string>)
  {
    InteractiveMarker in Normalize(args)
  }

  /** `getCommandName` of the impl revision: the first argument, or null. */
  function CommandNameOf(arguments: seq<string>): (r: Nullable<string>)
    ensures r.Null? <==> |arguments| == 0
    ensures r.NonNull? ==> r.value == arguments[0]
  {
    if |arguments| == 0 then Null else NonNull(arguments[0])
  }

  /** `getArguments`: `subList(1, size - 1)` when there is more than one argument, else
      empty. It drops the command name and the last argument as well. */
  function ArgumentsView(arguments: seq<string>): (r: seq<string>)
    ensures |r| == if |arguments| >= 2 then |arguments| - 2 else 0
    ensures forall k :: 0 <= k < |r| ==> r[k] == arguments[k + 1]
  {
    if |arguments| > 1 then arguments[1..|arguments| - 1] else []
  }

  /** `"exit".equalsIgnoreCase(name) || "quit".equalsIgnoreCase(name)`. */
  predicate IsExitName(name: Nullable<string>)
  {
    EqualsIgnoreCase("exit", name) || EqualsIgnoreCase("quit", name)
  }

  // ------------------------------------------------------------------ lemmas

  /** The partition loses and invents nothing: together the two lists are a
      rearrangement of the tokens. */
  lemma {:induction false} PartitionComplete(ts: seq<string>)
    ensures multiset(OptionTokens(ts)) + multiset(ArgumentTokens(ts)) == multiset(ts)
  {
    if |ts| > 0 {
      var init := ts[..|ts| - 1];
      var t := ts[|ts| - 1];
      PartitionComplete(init);
      assert ts == init + [t];
      assert multiset(ts) == multiset(init) + multiset{t};
      if IsOptionToken(t) {
        assert multiset(OptionTokens(ts)) == multiset(OptionTokens(init)) + multiset{t};
        assert ArgumentTokens(ts) == ArgumentTokens(init);
      } else {
        assert multiset(ArgumentTokens(ts)) == multiset(ArgumentTokens(init)) + multiset{t};
        assert OptionTokens(ts) == OptionTokens(init);
      }
    }
  }

  /** One more token of a prefix goes to the end of exactly one of the two lists. */
  lemma PartitionPrefix(ts: seq<string>, i: nat)
    requires i < |ts|
    ensures OptionTokens(ts[..i + 1]) == OptionTokens(ts[..i]) + (if IsOptionToken(ts[i]) then [ts[i]] else [])
    ensures ArgumentTokens(ts[..i + 1]) == ArgumentTokens(ts[..i]) + (if IsOptionToken(ts[i]) then [] else [ts[i]])
  {
    assert ts[..i + 1] == ts[..i] + [ts[i]];
    PartitionSnoc(ts[..i], ts[i]);
  }

  /** Each list keeps the tokens' order: the partition of a concatenation is the
      concatenation of the partitions. */
  lemma {:induction false} PartitionAppend(a: seq<string>, b: seq<string>)
    ensures OptionTokens(a + b) == OptionTokens(a) + OptionTokens(b)
    ensures ArgumentTokens(a + b) == ArgumentTokens(a) + ArgumentTokens(b)
    decreases |b|
  {
    if |b| == 0 {
      assert a + b == a;
    } else {
      var b' := b[..|b| - 1];
      PartitionAppend(a, b');
      assert (a + b)[..|a + b| - 1] == a + b';
      assert (a + b)[|a + b| - 1] == b[|b| - 1];
    }
  }

  /** A token without a leading '-' is an argument, one with it an option. */
  lemma PartitionSingle(t: string)
    ensures OptionTokens([t]) == if IsOptionToken(t) then [t] else []
    ensures ArgumentTokens([t]) == if IsOptionToken(t) then [] else [t]
  {
    assert [t][..0] == [];
  }

  /** After the re-split no token holds whitespace, and only the first token can be
      empty (a leading space); a line of spaces gives no tokens at all. */
  lemma ResplitTokens(s: string)
    requires ' ' in s
    ensures forall k, j :: 0 <= k < |Normalize([s])| && 0 <= j < |Normalize([s])[k]| ==> !IsWhitespace(Normalize([s])[k][j])
    ensures forall k :: 0 < k < |Normalize([s])| ==> Normalize([s])[k] != ""
  {
    var c := CollapseWhitespace(s);
    CollapseShape(s);
    assert ' ' in c by {
      var i :| 0 <= i < |s| && s[i] == ' ';
      CollapseKeepsSpace(s, i);
    }
    PiecesShape(c);
  }

  lemma {:induction false} CollapseKeepsSpace(s: string, i: nat)
    requires i < |s| && IsWhitespace(s[i])
    ensures ' ' in CollapseWhitespace(s)
    decreases |s|
  {
    if !IsWhitespace(s[0]) {
      CollapseKeepsSpace(s[1..], i - 1);
    }
  }

  /** Whitespace-free pieces, and no empty piece after the first but the last, in a
      string whose only whitespace is single spaces. */
  lemma PiecesShape(c: string)
    requires ' ' in c
    requires forall k :: 0 <= k < |c| ==> (IsWhitespace(c[k]) ==> c[k] == ' ')
    requires forall k :: 0 <= k < |c| - 1 ==> !(c[k] == ' ' && c[k + 1] == ' ')
    ensures forall k, j :: 0 <= k < |Split(c, ' ')| && 0 <= j < |Split(c, ' ')[k]| ==> !IsWhitespace(Split(c, ' ')[k][j])
    ensures forall k :: 0 < k < |Split(c, ' ')| ==> Split(c, ' ')[k] != ""
  {
    var ps := Pieces(c, ' ');
    PiecesClean(c);
    var r := DropTrailingEmpty(ps);
    DropTrailingEmptyShape(ps);
    assert Split(c, ' ') == r;
    forall k | 0 < k < |r| ensures r[k] != "" {
      assert r[k] == ps[k];
      if k < |ps| - 1 {
        assert ps[k] != "";
      } else {
        assert r[|r| - 1] != "";
      }
    }
  }

  lemma {:induction false} PiecesClean(c: string)
    requires forall k :: 0 <= k < |c| ==> (IsWhitespace(c[k]) ==> c[k] == ' ')
    requires forall k :: 0 <= k < |c| - 1 ==> !(c[k] == ' ' && c[k + 1] == ' ')
    ensures CleanPieces(Pieces(c, ' '))
    decreases |c|
  {
    var i := IndexOf(c, ' ');
    if i >= 0 {
      var rest := c[i + 1..];
      PiecesClean(rest);
      HeadPiece(c, i);
      CleanCons(c[..i], Pieces(rest, ' '));
    } else {
      forall j | 0 <= j < |c| ensures !IsWhitespace(c[j]) {
        assert c[j] in c;
      }
    }
  }

  /** The piece before the first space holds no whitespace, and the piece after it is
      not empty unless it is the last one. */
  lemma HeadPiece(c: string, i: nat)
    requires forall k :: 0 <= k < |c| ==> (IsWhitespace(c[k]) ==> c[k] == ' ')
    requires forall k :: 0 <= k < |c| - 1 ==> !(c[k] == ' ' && c[k + 1] == ' ')
    requires i < |c| && c[i] == ' ' && ' ' !in c[..i]
    ensures forall j :: 0 <= j < |c[..i]| ==> !IsWhitespace(c[..i][j])
    ensures |Pieces(c[i + 1..], ' ')| > 1 ==> Pieces(c[i + 1..], ' ')[0] != ""
  {
    forall j | 0 <= j < i ensures !IsWhitespace(c[..i][j]) {
      assert c[..i][j] in c[..i];
    }
    var rest := c[i + 1..];
    if |Pieces(rest, ' ')| > 1 {
      assert rest[0] == c[i + 1];
    }
  }

  /** A clean head before clean pieces whose first is not empty (unless last) is clean. */
  lemma CleanCons(h: string, pr: seq<string>)
    requires forall j :: 0 <= j < |h| ==> !IsWhitespace(h[j])
    requires CleanPieces(pr) && (|pr| > 1 ==> pr[0] != "")
    ensures CleanPieces([h] + pr)
  {
    var ps := [h] + pr;
    forall k, j | 0 <= k < |ps| && 0 <= j < |ps[k]| ensures !IsWhitespace(ps[k][j]) {
      if k > 0 {
        assert ps[k] == pr[k - 1];
      }
    }
  }

  /** No piece holds whitespace and no piece but the first and the last is empty. */
  predicate CleanPieces(ps: seq<string>)
  {
    (forall k, j :: 0 <= k < |ps| && 0 <= j < |ps[k]| ==> !IsWhitespace(ps[k][j]))
    && (forall k :: 0 < k < |ps| - 1 ==> ps[k] != "")
  }

  /** A string whose only whitespace is single spaces is left as it is by the collapse. */
  lemma {:induction false} CollapseIdentity(s: string)
    requires forall k :: 0 <= k < |s| ==> (IsWhitespace(s[k]) ==> s[k] == ' ')
    requires forall k :: 0 <= k < |s| - 1 ==> !(s[k] == ' ' && s[k + 1] == ' ')
    ensures CollapseWhitespace(s) == s
    decreases |s|
  {
    if |s| > 0 {
      var t := s[1..];
      assert forall k :: 0 <= k < |t| ==> t[k] == s[k + 1];
      CollapseIdentity(t);
      if IsWhitespace(s[0]) {
        if |t| > 0 {
          assert !IsWhitespace(t[0]) by {
            assert !(s[0] == ' ' && s[1] == ' ');
          }
        }
        assert DropWhitespace(t) == t;
        assert CollapseWhitespace(s) == " " + t;
      } else {
        assert CollapseWhitespace(s) == [s[0]] + t;
      }
      assert s == [s[0]] + t;
    }
  }

  /** A command line such as `webapp --hostname:h stop extra`: the arguments after the
      command name lose their last element. */
  lemma ArgumentsDropLast()
    ensures ArgumentTokens(Tokens(["webapp", "--hostname:h", "stop", "extra"])) == ["webapp", "stop", "extra"]
    ensures OptionTokens(Tokens(["webapp", "--hostname:h", "stop", "extra"])) == ["--hostname:h"]
    ensures ArgumentsView(ArgumentTokens(Tokens(["webapp", "--hostname:h", "stop", "extra"]))) == ["stop"]
  {
    var ts := ["webapp", "--hostname:h", "stop", "extra"];
    assert Normalize(ts) == ts;
    assert InteractiveMarker !in ts by {
      assert |InteractiveMarker| == 13;
      assert |ts[0]| == 6 && |ts[1]| == 12 && |ts[2]| == 4 && |ts[3]| == 5;
    }
    assert Tokens(ts) == ts;
    PartitionFour("webapp", "--hostname:h", "stop", "extra");
    assert ArgumentsView(["webapp", "stop", "extra"]) == ["webapp", "stop", "extra"][1..2] == ["stop"];
  }

  /** Four tokens of which only the second is an option. */
  lemma PartitionFour(a: string, b: string, c: string, d: string)
    requires !IsOptionToken(a) && IsOptionToken(b) && !IsOptionToken(c) && !IsOptionToken(d)
    ensures ArgumentTokens([a, b, c, d]) == [a, c, d]
    ensures OptionTokens([a, b, c, d]) == [b]
  {
    PartitionSnoc([], a);
    assert [] + [a] == [a];
    PartitionSnoc([a], b);
    PartitionSnoc([a, b], c);
    assert [a, b] + [c] == [a, b, c];
    PartitionSnoc([a, b, c], d);
    assert [a, b, c] + [d] == [a, b, c, d];
  }

  /** One more token goes to the end of its side of the partition. */
  lemma PartitionSnoc(ts: seq<string>, t: string)
    ensures OptionTokens(ts + [t]) == OptionTokens(ts) + (if IsOptionToken(t) then [t] else [])
    ensures ArgumentTokens(ts + [t]) == ArgumentTokens(ts) + (if IsOptionToken(t) then [] else [t])
  {
    assert (ts + [t])[..|ts|] == ts;
  }

  /** An exit name is a text that folds to "exit" or to "quit"; null is none. */
  lemma ExitFolded(name: Nullable<string>)
    ensures IsExitName(name) <==> name.NonNull? && (Folded(name.value) == "exit" || Folded(name.value) == "quit")
  {
    assert Folded("exit") == "exit";
    assert Folded("quit") == "quit";
    if name.NonNull? {
      IgnoreCaseFolded("exit", name.value);
      IgnoreCaseFolded("quit", name.value);
    }
  }

  /** Only "exit" and "quit", in any letter case, end the session; null never does. */
  lemma ExitNames()
    ensures IsExitName(NonNull("EXIT")) && IsExitName(NonNull("Quit"))
    ensures !IsExitName(Null) && !IsExitName(NonNull("exits"))
  {
  }
}
