/** Rules in a line of text, separated by single spaces (sds.c, as used by acl.c). */
module AclText {

  /** The words with a separator between them. */
  function Join(words: seq<string>, sep: char): string {
    if words == [] then []
    else if |words| == 1 then words[0]
    else words[0] + [sep] + Join(words[1..], sep)
  }

  /** The words, each followed by a separator. */
  function Terminated(words: seq<string>, sep: char): string {
    if words == [] then [] else Terminated(words[..|words| - 1], sep) + words[|words| - 1] + [sep]
  }

  lemma {:induction false} TerminatedConcat(a: seq<string>, b: seq<string>, sep: char)
    ensures Terminated(a + b, sep) == Terminated(a, sep) + Terminated(b, sep)
    decreases |b|
  {
    if b == [] {
      assert a + b == a;
    } else {
      var init, last := b[..|b| - 1], b[|b| - 1];
      TerminatedConcat(a, init, sep);
      assert (a + b)[..|a + b| - 1] == a + init;
      Associate(Terminated(a, sep), Terminated(init, sep), last + [sep]);
      Associate(Terminated(a + init, sep), last, [sep]);
      Associate(Terminated(init, sep), last, [sep]);
    }
  }

  lemma Associate(a: string, b: string, c: string)
    ensures (a + b) + c == a + (b + c)
  {
  }

  lemma TerminatedOne(w: string, sep: char)
    ensures Terminated([w], sep) == w + [sep]
  {
  }

  lemma TerminatedFirst(words: seq<string>, sep: char)
    requires words != []
    ensures Terminated(words, sep) == words[0] + [sep] + Terminated(words[1..], sep)
  {
    assert words == [words[0]] + words[1..];
    TerminatedConcat([words[0]], words[1..], sep);
    TerminatedOne(words[0], sep);
  }

  /** Without the last separator, the words are joined. */
  lemma {:induction false} TerminatedIsJoin(words: seq<string>, sep: char)
    requires words != []
    ensures Terminated(words, sep) == Join(words, sep) + [sep]
    decreases |words|
  {
    TerminatedFirst(words, sep);
    if |words| > 1 {
      TerminatedIsJoin(words[1..], sep);
    }
  }

  /** The pieces of a text between separators; there is always at least one. */
  function Split(s: string, sep: char): (r: seq<string>)
    ensures r != []
  {
    if s == [] then [""]
    else
      var rest := Split(s[1..], sep);
      if s[0] == sep then [""] + rest else [[s[0]] + rest[0]] + rest[1..]
  }

  lemma {:induction false} SplitWord(w: string, sep: char, rest: string)
    requires sep !in w
    ensures Split(w + [sep] + rest, sep) == [w] + Split(rest, sep)
    decreases |w|
  {
    if w == [] {
      assert w + [sep] + rest == [sep] + rest;
    } else {
      assert w[0] in w;
      assert (w + [sep] + rest)[1..] == w[1..] + [sep] + rest;
      assert [w[0]] + w[1..] == w;
      SplitWord(w[1..], sep, rest);
    }
  }

  lemma {:induction false} SplitLast(w: string, sep: char)
    requires sep !in w
    ensures Split(w, sep) == [w]
    decreases |w|
  {
    if w != [] {
      assert w[0] in w && [w[0]] + w[1..] == w;
      SplitLast(w[1..], sep);
    }
  }

  predicate FreeOf(words: seq<string>, sep: char) { forall i | 0 <= i < |words| :: sep !in words[i] }

  lemma {:induction false} SplitFree(s: string, sep: char)
    ensures FreeOf(Split(s, sep), sep)
    decreases |s|
  {
    if s != [] { SplitFree(s[1..], sep); }
  }

  lemma {:induction false} SplitOfFree(words: seq<string>, sep: char)
    requires words != [] && FreeOf(words, sep)
    ensures Split(Join(words, sep), sep) == words
    decreases |words|
  {
    if |words| == 1 {
      SplitLast(words[0], sep);
    } else {
      SplitOfFree(words[1..], sep);
      SplitWord(words[0], sep, Join(words[1..], sep));
    }
  }

  /** A text of joined words splits into these words exactly if no word contains the separator. */
  lemma SplitJoin(words: seq<string>, sep: char)
    requires words != []
    ensures Split(Join(words, sep), sep) == words <==> FreeOf(words, sep)
  {
    if FreeOf(words, sep) { SplitOfFree(words, sep); }
    SplitFree(Join(words, sep), sep);
  }

  // -------------------------------------------------------------------- Trimming

  function TrimLeft(s: string, cut: set<char>): string {
    if s != [] && s[0] in cut then TrimLeft(s[1..], cut) else s
  }

  function TrimRight(s: string, cut: set<char>): string {
    if s != [] && s[|s| - 1] in cut then TrimRight(s[..|s| - 1], cut) else s
  }

  function Trim(s: string, cut: set<char>): string { TrimRight(TrimLeft(s, cut), cut) }

  lemma TrimNothing(s: string, cut: set<char>)
    requires s == [] || (s[0] !in cut && s[|s| - 1] !in cut)
    ensures Trim(s, cut) == s
  {
  }
}
