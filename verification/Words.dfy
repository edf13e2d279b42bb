/** Words of a text as `stream >> word` delivers them. */
module Words {
  import opened CTypes

  /** The words of s, where `word` has been read already. */
  function Split(s: string, word: string): seq<string> {
    if s == "" then Flush(word)
    else if IsSpace(s[0]) then Flush(word) + Split(s[1..], "")
    else Split(s[1..], word + [s[0]])
  }

  function Flush(word: string): seq<string> {
    if word == "" then [] else [word]
  }

  function WordsOf(s: string): seq<string> {
    Split(s, "")
  }

  /** A text that is one word. */
  ghost predicate Clean(s: string) {
    s != "" && forall i :: 0 <= i < |s| ==> !IsSpace(s[i])
  }

  lemma {:induction false} SplitAtSpace(a: string, c: char, b: string, word: string)
    requires IsSpace(c)
    ensures Split(a + [c] + b, word) == Split(a, word) + Split(b, "")
  {
    var s := a + [c] + b;
    if a == "" {
      assert s[0] == c && s[1..] == b;
    } else {
      assert s[0] == a[0] && s[1..] == a[1..] + [c] + b;
      if IsSpace(a[0]) {
        SplitAtSpace(a[1..], c, b, "");
        assert Flush(word) + (Split(a[1..], "") + Split(b, "")) == Split(a, word) + Split(b, "");
      } else {
        SplitAtSpace(a[1..], c, b, word + [a[0]]);
      }
    }
  }

  /** Blanks separate. */
  lemma WordsAtSpace(a: string, b: string)
    ensures WordsOf(a + " " + b) == WordsOf(a) + WordsOf(b)
  {
    SplitAtSpace(a, ' ', b, "");
  }

  lemma {:induction false} SplitClean(s: string, word: string)
    requires forall i :: 0 <= i < |s| ==> !IsSpace(s[i])
    ensures Split(s, word) == Flush(word + s)
  {
    if s == "" {
      assert word + s == word;
    } else {
      SplitClean(s[1..], word + [s[0]]);
      assert word + [s[0]] + s[1..] == word + s;
    }
  }

  lemma {:induction false} SplitGivesClean(s: string, word: string)
    requires word == "" || Clean(word)
    ensures forall i :: 0 <= i < |Split(s, word)| ==> Clean(Split(s, word)[i])
  {
    if s != "" {
      if IsSpace(s[0]) {
        SplitGivesClean(s[1..], "");
      } else {
        SplitGivesClean(s[1..], word + [s[0]]);
      }
    }
  }

  lemma WordsAreClean(s: string)
    ensures forall i :: 0 <= i < |WordsOf(s)| ==> Clean(WordsOf(s)[i])
  {
    SplitGivesClean(s, "");
  }

  /** A text is its own only word exactly when it is clean. */
  lemma CleanIffOneWord(s: string)
    ensures WordsOf(s) == [s] <==> Clean(s)
  {
    WordsAreClean(s);
    if Clean(s) {
      SplitClean(s, "");
      assert "" + s == s;
    } else {
      forall i | 0 <= i < |WordsOf(s)| ensures WordsOf(s)[i] != s {
        assert Clean(WordsOf(s)[i]);
      }
      assert [s][0] == s && (|WordsOf(s)| == 1 ==> WordsOf(s)[0] != s);
    }
  }

  /** `stream >> word`, from a position in the text; a failed read leaves the word as it was. */
  method Extract(text: string, at: nat, oldWord: string) returns (ok: bool, word: string, next: nat)
    requires at <= |text|
    ensures next <= |text| && ok == (WordsOf(text[at..]) != [])
    ensures ok ==> at < next && WordsOf(text[at..]) == [word] + WordsOf(text[next..])
    ensures !ok ==> word == oldWord
  {
    next := at;
    while next < |text| && IsSpace(text[next])
      invariant at <= next <= |text| && WordsOf(text[at..]) == WordsOf(text[next..])
    {
      assert text[next..][1..] == text[next + 1..];
      next := next + 1;
    }
    if next == |text| {
      return false, oldWord, next;
    }
    ok, word := true, "";
    ghost var first := next;
    while next < |text| && !IsSpace(text[next])
      invariant first <= next <= |text| && (word == "" <==> next == first)
      invariant Split(text[next..], word) == WordsOf(text[at..])
    {
      assert text[next..][1..] == text[next + 1..];
      word := word + [text[next]];
      next := next + 1;
    }
    if next < |text| {
      assert text[next..][1..] == text[next + 1..];
    }
  }
}
