/**
 * The message tokenizer `text.split(/\b(\w+)\b/g)`. Because the pattern has one capture group,
 * the result alternates the text between matches with the matched words: non-word run, word run,
 * non-word run, ..., non-word run.
 */
module Tokenizer {
  import opened Text

  /** Length of the run of non-word characters at the start of `s`. */
  function NonWordRun(s: string): (n: nat)
    ensures n <= |s| && NoWordChars(s[..n])
    ensures n < |s| ==> IsWordChar(s[n])
  {
    if s == [] || IsWordChar(s[0]) then 0 else 1 + NonWordRun(s[1..])
  }

  /** Length of the run of word characters at the start of `s`. */
  function WordRun(s: string): (n: nat)
    ensures n <= |s| && AllWordChars(s[..n])
    ensures n < |s| ==> !IsWordChar(s[n])
  {
    if s == [] || !IsWordChar(s[0]) then 0 else 1 + WordRun(s[1..])
  }

  /**
   * `text.split(/\b(\w+)\b/g)`. The split scans from the end of the previous match; the first
   * position where `\b\w+\b` matches starts a word run preceded by a non-word character (or the
   * start of the text), and the greedy `\w+` takes the whole run.
   */
  function Tokenize(s: string): (r: seq<string>)
    ensures |r| % 2 == 1
    decreases |s|
  {
    var i := NonWordRun(s);
    if i == |s| then [s]
    else
      var j := i + WordRun(s[i..]);
      [s[..i], s[i..j]] + Tokenize(s[j..])
  }

  /** Plain concatenation of the pieces: `pieces.join("")`. */
  function Concat(pieces: seq<string>): string {
    Join(pieces, "")
  }

  /** Concatenation takes the first piece, then the rest. */
  lemma ConcatUncons(pieces: seq<string>)
    requires |pieces| >= 1
    ensures Concat(pieces) == pieces[0] + Concat(pieces[1..])
  {
    if |pieces| == 1 {
      assert pieces[1..] == [];
      assert pieces[0] + "" == pieces[0];
    } else {
      assert pieces[0] + "" + Join(pieces[1..], "") == pieces[0] + Join(pieces[1..], "");
    }
  }

  /**
   * What a result of the split looks like, independently of how it is computed: an odd number
   * of pieces that concatenate to the text, word pieces at odd indices that are non-empty runs of
   * `\w`, and non-word pieces at even indices, those between two words non-empty (so every word
   * piece is a maximal run).
   */
  predicate IsTokenization(s: string, r: seq<string>) {
    && |r| % 2 == 1
    && Concat(r) == s
    && WordsAtOdd(r)
    && GapsAtEven(r)
    && InnerGapsNonEmpty(r)
  }

  predicate WordsAtOdd(r: seq<string>) {
    forall k :: 0 <= k < |r| && k % 2 == 1 ==> |r[k]| > 0 && AllWordChars(r[k])
  }

  predicate GapsAtEven(r: seq<string>) {
    forall k :: 0 <= k < |r| && k % 2 == 0 ==> NoWordChars(r[k])
  }

  predicate InnerGapsNonEmpty(r: seq<string>) {
    forall k :: 0 < k < |r| - 1 && k % 2 == 0 ==> |r[k]| > 0
  }

  lemma NonWordRunOf(a: string, b: string)
    requires NoWordChars(a)
    requires b == [] || IsWordChar(b[0])
    ensures NonWordRun(a + b) == |a|
  {
    if a != [] {
      assert (a + b)[1..] == a[1..] + b;
      NonWordRunOf(a[1..], b);
    } else {
      assert a + b == b;
    }
  }

  lemma WordRunOf(a: string, b: string)
    requires AllWordChars(a)
    requires b == [] || !IsWordChar(b[0])
    ensures WordRun(a + b) == |a|
  {
    if a != [] {
      assert (a + b)[1..] == a[1..] + b;
      WordRunOf(a[1..], b);
    } else {
      assert a + b == b;
    }
  }

  lemma ConcatCons(a: string, w: string, rest: seq<string>)
    ensures Concat([a, w] + rest) == a + w + Concat(rest)
  {
    ConcatUncons([a, w] + rest);
    assert ([a, w] + rest)[1..] == [w] + rest;
    ConcatUncons([w] + rest);
    assert ([w] + rest)[1..] == rest;
  }

  /** Prepending a gap and a word to a tokenization gives a tokenization. */
  lemma TokenizationCons(a: string, w: string, t: string, rest: seq<string>)
    requires NoWordChars(a) && |w| > 0 && AllWordChars(w)
    requires IsTokenization(t, rest)
    requires t != [] ==> |rest[0]| > 0
    ensures IsTokenization(a + w + t, [a, w] + rest)
  {
    var r := [a, w] + rest;
    ConcatCons(a, w, rest);
    forall k | 2 <= k < |r| ensures r[k] == rest[k - 2] {}
    assert |rest| > 1 ==> t != [] by {
      if |rest| > 1 {
        ConcatUncons(rest);
        ConcatUncons(rest[1..]);
        assert rest[1..][1..] == rest[2..];
      }
    }
  }

  /** Dropping the first gap and word of a tokenization leaves a tokenization of the rest. */
  lemma TokenizationTail(s: string, r: seq<string>)
    requires IsTokenization(s, r) && |r| > 1
    ensures IsTokenization(Concat(r[2..]), r[2..])
    ensures s == r[0] + r[1] + Concat(r[2..])
    ensures Concat(r[2..]) == [] || !IsWordChar(Concat(r[2..])[0])
  {
    var rest := r[2..];
    ConcatCons(r[0], r[1], rest);
    assert r == [r[0], r[1]] + rest;
    forall k | 0 <= k < |rest| ensures rest[k] == r[k + 2] {}
    var t := Concat(rest);
    if t != [] {
      ConcatUncons(rest);
      if |rest| > 1 {
        assert |rest[0]| > 0;
      }
    }
  }

  /** Cutting a string at two positions and putting the parts back together. */
  lemma SliceParts(s: string, i: nat, j: nat)
    requires i <= j <= |s|
    ensures s == s[..i] + s[i..j] + s[j..]
    ensures s[i..j] == s[i..][..j - i] && s[j..] == s[i..][j - i..]
  {
  }

  /** One step of the split: a leading gap, the maximal word after it, and the rest. */
  lemma TokenizeStep(s: string)
    requires NonWordRun(s) < |s|
    ensures var i := NonWordRun(s);
      var j := i + WordRun(s[i..]);
      && i < j <= |s|
      && s == s[..i] + s[i..j] + s[j..]
      && NoWordChars(s[..i]) && AllWordChars(s[i..j])
      && (s[j..] == [] || !IsWordChar(s[j..][0]))
      && Tokenize(s) == [s[..i], s[i..j]] + Tokenize(s[j..])
  {
    var i := NonWordRun(s);
    var u := s[i..];
    assert u[0] == s[i];
    var j := i + WordRun(u);
    SliceParts(s, i, j);
  }

  /** A text that starts with a non-word character splits into a non-empty first gap. */
  lemma FirstGapNonEmpty(t: string)
    requires t != [] && !IsWordChar(t[0])
    ensures |Tokenize(t)[0]| > 0
  {
    assert NonWordRun(t) > 0;
  }

  /** The split satisfies the independent description above. */
  lemma {:induction false} TokenizeIsTokenization(s: string)
    ensures IsTokenization(s, Tokenize(s))
    decreases |s|
  {
    var i := NonWordRun(s);
    if i == |s| {
      assert Concat([s]) == s;
    } else {
      TokenizeStep(s);
      var j := i + WordRun(s[i..]);
      var t := s[j..];
      TokenizeIsTokenization(t);
      if t != [] {
        FirstGapNonEmpty(t);
      }
      TokenizationCons(s[..i], s[i..j], t, Tokenize(t));
    }
  }

  /** The split is the only decomposition with that description. */
  lemma {:induction false} TokenizationIsUnique(s: string, r: seq<string>)
    requires IsTokenization(s, r)
    ensures r == Tokenize(s)
    decreases |r|
  {
    if |r| == 1 {
      assert Concat(r) == r[0];
      NonWordRunOf(s, []);
      assert s + [] == s;
    } else {
      TokenizationTail(s, r);
      var t := Concat(r[2..]);
      TokenizationIsUnique(t, r[2..]);
      assert NoWordChars(r[0]) && |r[1]| > 0 && AllWordChars(r[1]);
      TokenizeCons(r[0], r[1], t);
      assert r == [r[0], r[1]] + r[2..];
    }
  }

  /** No word piece contains a colon: word pieces are made of `\w` characters only. */
  lemma {:induction false} WordPiecesHaveNoColon(s: string)
    ensures forall k :: 0 <= k < |Tokenize(s)| && k % 2 == 1 ==> ':' !in Tokenize(s)[k]
  {
    TokenizeIsTokenization(s);
    var r := Tokenize(s);
    forall k | 0 <= k < |r| && k % 2 == 1
      ensures ':' !in r[k]
    {
      assert AllWordChars(r[k]);
    }
  }

  /** The split takes a leading gap and the word after it, then goes on with the rest. */
  lemma TokenizeCons(a: string, w: string, t: string)
    requires NoWordChars(a) && |w| > 0 && AllWordChars(w)
    requires t == [] || !IsWordChar(t[0])
    ensures Tokenize(a + w + t) == [a, w] + Tokenize(t)
  {
    var s := a + w + t;
    assert s == a + (w + t);
    NonWordRunOf(a, w + t);
    assert s[|a|..] == w + t;
    WordRunOf(w, t);
    var j := |a| + |w|;
    assert s[..|a|] == a && s[|a|..j] == w && s[j..] == t;
  }

  /**
   * A message that starts with the mention `<@id>` of an id made of word characters splits
   * into `"<@"`, the id, and then a piece that starts with `">"`.
   */
  lemma MentionPieces(id: string, text: string)
    requires |id| > 0 && AllWordChars(id)
    requires "<@" + id + ">" <= text
    ensures var r := Tokenize(text);
      && |r| >= 3
      && r[0] == "<@"
      && r[1] == id
      && |r[2]| > 0 && r[2][0] == '>'
  {
    var m := "<@" + id + ">";
    var t := text[|m| - 1..];
    assert text == "<@" + id + t by {
      assert text[..|m|] == m;
      assert text == text[..|m| - 1] + t;
      assert text[..|m| - 1] == m[..|m| - 1] == "<@" + id;
    }
    assert t[0] == '>';
    assert NoWordChars("<@");
    TokenizeCons("<@", id, t);
    var n := NonWordRun(t);
    assert n >= 1;
    assert Tokenize(t)[0] == t[..n];
  }

  /**
   * A command right after the mention, as in `<@BOT> job:last backend`: the third piece, which
   * the access check uses as a project key, is `"> "`, not the project.
   */
  lemma MentionThenCommand(id: string, command: string)
    requires |id| > 0 && AllWordChars(id)
    requires |command| > 0 && IsWordChar(command[0])
    ensures var r := Tokenize("<@" + id + "> " + command);
      |r| >= 3 && r[1] == id && r[2] == "> "
  {
    var t := "> " + command;
    assert "<@" + id + "> " + command == "<@" + id + t;
    assert NoWordChars("<@");
    TokenizeCons("<@", id, t);
    NonWordRunOf("> ", command);
    assert t[..2] == "> ";
  }
}
