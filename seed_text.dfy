/** The seed text as the wallet form handles it: split on single spaces
    (`String.prototype.split(' ')`) and rebuilt word by word with a trailing
    space that is then cut off (`forEach` + `substr(0, length - 1)`). */
module SeedText {

  /** `s.split(' ')`: the pieces between single spaces. Two adjacent spaces
      give an empty piece and the empty string gives one empty piece. */
  function SplitSpaces(s: string): (pieces: seq<string>)
    ensures |pieces| >= 1
    ensures forall k :: 0 <= k < |pieces| ==> ' ' !in pieces[k]
  {
    if |s| == 0 then [""]
    else if s[0] == ' ' then [""] + SplitSpaces(s[1..])
    else
      var rest := SplitSpaces(s[1..]);
      [[s[0]] + rest[0]] + rest[1..]
  }

  /** The words separated by single spaces (`words.join(' ')`). */
  function JoinSpaces(words: seq<string>): string
  {
    if |words| == 0 then ""
    else if |words| == 1 then words[0]
    else words[0] + " " + JoinSpaces(words[1..])
  }

  /** What the `forEach` accumulation builds: every word followed by one space. */
  function Accumulated(words: seq<string>): string
  {
    if |words| == 0 then ""
    else Accumulated(words[..|words| - 1]) + words[|words| - 1] + " "
  }

  /** `s.substr(0, s.length - 1)`, which is "" for the empty string. */
  function DropLast(s: string): string
  {
    if |s| == 0 then s else s[..|s| - 1]
  }

  /** Joining a word in front of a list, one unfolding of `JoinSpaces`. */
  lemma JoinCons(head: string, rest: seq<string>)
    ensures JoinSpaces([head] + rest) == if |rest| == 0 then head else head + " " + JoinSpaces(rest)
  {
  }

  /** Joining the pieces of a split gives back the text, whatever it holds. */
  lemma {:induction false} JoinSplit(s: string)
    ensures JoinSpaces(SplitSpaces(s)) == s
  {
    if |s| == 0 {
    } else if s[0] == ' ' {
      JoinSplit(s[1..]);
      var rest := SplitSpaces(s[1..]);
      assert ([""] + rest)[1..] == rest;
      assert s == " " + s[1..];
    } else {
      JoinSplit(s[1..]);
      var rest := SplitSpaces(s[1..]);
      assert rest == [rest[0]] + rest[1..];
      JoinCons(rest[0], rest[1..]);
      JoinCons([s[0]] + rest[0], rest[1..]);
      if |rest| > 1 {
        var tail := JoinSpaces(rest[1..]);
        assert ([s[0]] + rest[0]) + " " + tail == [s[0]] + (rest[0] + " " + tail);
      }
      assert s == [s[0]] + s[1..];
    }
  }

  lemma {:induction false} SplitWord(w: string)
    requires ' ' !in w
    ensures SplitSpaces(w) == [w]
  {
    if |w| > 0 {
      assert ' ' !in w[1..] by {
        forall k | 0 <= k < |w[1..]| ensures w[1..][k] != ' ' {
          assert w[1..][k] == w[k + 1];
        }
      }
      SplitWord(w[1..]);
      assert [w[0]] + w[1..] == w;
    }
  }

  lemma {:induction false} SplitWordThenSpace(w: string, t: string)
    requires ' ' !in w
    ensures SplitSpaces(w + " " + t) == [w] + SplitSpaces(t)
  {
    var s := w + " " + t;
    if |w| == 0 {
      assert s[0] == ' ' && s[1..] == t;
    } else {
      assert ' ' !in w[1..] by {
        forall k | 0 <= k < |w[1..]| ensures w[1..][k] != ' ' {
          assert w[1..][k] == w[k + 1];
        }
      }
      SplitWordThenSpace(w[1..], t);
      assert s[0] == w[0] && s[1..] == w[1..] + " " + t;
      assert [w[0]] + w[1..] == w;
    }
  }

  /** Splitting a space-joined list of words without spaces gives the words back. */
  lemma {:induction false} SplitJoin(words: seq<string>)
    requires |words| >= 1
    requires forall k :: 0 <= k < |words| ==> ' ' !in words[k]
    ensures SplitSpaces(JoinSpaces(words)) == words
  {
    if |words| == 1 {
      SplitWord(words[0]);
    } else {
      SplitJoin(words[1..]);
      SplitWordThenSpace(words[0], JoinSpaces(words[1..]));
      assert [words[0]] + words[1..] == words;
    }
  }

  lemma {:induction false} JoinSnoc(words: seq<string>, w: string)
    requires |words| >= 1
    ensures JoinSpaces(words + [w]) == JoinSpaces(words) + " " + w
  {
    if |words| == 1 {
      assert (words + [w])[1..] == [w];
    } else {
      JoinSnoc(words[1..], w);
      assert (words + [w])[1..] == words[1..] + [w];
    }
  }

  /** The accumulated text with its last character cut off is the words joined by single spaces. */
  lemma {:induction false} AccumulatedIsJoin(words: seq<string>)
    ensures |words| >= 1 ==> Accumulated(words) == JoinSpaces(words) + " "
    ensures DropLast(Accumulated(words)) == JoinSpaces(words)
  {
    if |words| >= 1 {
      var init := words[..|words| - 1];
      var last := words[|words| - 1];
      assert init + [last] == words;
      if |init| >= 1 {
        AccumulatedIsJoin(init);
        JoinSnoc(init, last);
      } else {
        assert words == [last];
      }
      assert Accumulated(words) == Accumulated(init) + last + " ";
      var acc := Accumulated(words);
      assert acc == JoinSpaces(words) + " ";
      assert acc[..|acc| - 1] == JoinSpaces(words);
    }
  }

  /** The loop of `askForWord` that assembles the recovery phrase from the collected words. */
  method JoinWords(words: seq<string>) returns (entered: string)
    ensures entered == JoinSpaces(words)
    ensures |words| >= 1 && (forall k :: 0 <= k < |words| ==> ' ' !in words[k]) ==> SplitSpaces(entered) == words
  {
    var acc := "";
    for i := 0 to |words|
      invariant acc == Accumulated(words[..i])
    {
      assert words[..i + 1][..i] == words[..i];
      acc := acc + words[i] + " ";
    }
    assert words[..|words|] == words;
    AccumulatedIsJoin(words);
    entered := DropLast(acc);
    if |words| >= 1 && (forall k :: 0 <= k < |words| ==> ' ' !in words[k]) {
      SplitJoin(words);
    }
  }
}
