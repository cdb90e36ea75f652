/** What the string functions give on text as a client writes it: letters in either case, words between white
    space, an ID between angle brackets. */
module Words {
  import opened ByteStrings
  import opened Wire

  // ----- letters in either case

  /** The same byte, or the same letter in the other case. */
  predicate SameLetter(a: Byte, b: Byte) {
    || a == b
    || ('a' <= a <= 'z' && b as int == a as int - 32)
    || ('A' <= a <= 'Z' && b as int == a as int + 32)
  }

  predicate SameLetters(s: Bytes, t: Bytes) {
    |s| == |t| && forall i :: 0 <= i < |s| ==> SameLetter(s[i], t[i])
  }

  lemma SameLetterFolds(a: Byte, b: Byte)
    ensures LowerByte(a) == LowerByte(b) <==> SameLetter(a, b)
    ensures !('a' <= b <= 'z') ==> (UpperByte(a) == b <==> SameLetter(a, b))
  {}

  lemma EqualFoldExactly(s: Bytes, t: Bytes)
    ensures EqualFold(s, t) <==> SameLetters(s, t)
  {
    forall i | 0 <= i < |s| && i < |t| ensures LowerByte(s[i]) == LowerByte(t[i]) <==> SameLetter(s[i], t[i]) {
      SameLetterFolds(s[i], t[i]);
    }
    if EqualFold(s, t) {
      assert |Lower(s)| == |Lower(t)|;
      forall i | 0 <= i < |s| ensures SameLetter(s[i], t[i]) {
        assert Lower(s)[i] == Lower(t)[i];
      }
    }
  }

  /** A text in capitals. */
  predicate IsUpper(t: Bytes) {
    forall i :: 0 <= i < |t| ==> !('a' <= t[i] <= 'z')
  }

  lemma UpperExactly(s: Bytes, t: Bytes)
    requires IsUpper(t)
    ensures Upper(s) == t <==> SameLetters(s, t)
  {
    forall i | 0 <= i < |s| && i < |t| ensures UpperByte(s[i]) == t[i] <==> SameLetter(s[i], t[i]) {
      SameLetterFolds(s[i], t[i]);
    }
    if Upper(s) == t {
      forall i | 0 <= i < |s| ensures SameLetter(s[i], t[i]) {
        assert Upper(s)[i] == t[i];
      }
    }
  }

  // ----- white space

  lemma SpacesAre(c: Byte)
    ensures IsSpace(c) <==> c as int in {9, 10, 11, 12, 13, 32}
  {}

  predicate AllSpace(s: Bytes) {
    forall i :: 0 <= i < |s| ==> IsSpace(s[i])
  }

  /** The text neither starts nor ends with white space. */
  predicate IsTrim(s: Bytes) {
    s != [] ==> !IsSpace(s[0]) && !IsSpace(s[|s| - 1])
  }

  lemma {:induction false} TrimLeftIs(gap: Bytes, s: Bytes)
    requires AllSpace(gap) && (s != [] ==> !IsSpace(s[0]))
    ensures TrimLeftSpace(gap + s) == s
  {
    if gap == [] {
      assert gap + s == s;
    } else {
      assert (gap + s)[1..] == gap[1..] + s;
      TrimLeftIs(gap[1..], s);
    }
  }

  lemma {:induction false} TrimRightIs(s: Bytes, gap: Bytes)
    requires AllSpace(gap) && (s != [] ==> !IsSpace(s[|s| - 1]))
    ensures TrimRightSpace(s + gap) == s
  {
    if gap == [] {
      assert s + gap == s;
    } else {
      assert (s + gap)[..|s + gap| - 1] == s + gap[..|gap| - 1];
      TrimRightIs(s, gap[..|gap| - 1]);
    }
  }

  /** White space around a text is trimmed, and nothing else. */
  lemma TrimSpaceIs(before: Bytes, s: Bytes, after: Bytes)
    requires AllSpace(before) && IsTrim(s) && AllSpace(after)
    ensures TrimSpace(before + s + after) == s
  {
    if s == [] {
      assert before + s + after == (before + after) + [];
      TrimLeftIs(before + after, []);
    } else {
      assert before + s + after == before + (s + after);
      TrimLeftIs(before, s + after);
      TrimRightIs(s, after);
    }
  }

  // ----- an ID in angle brackets

  /** The bytes an ID is written with: no white space and no angle bracket. */
  predicate IsPlainId(id: Bytes) {
    id != [] && forall i :: 0 <= i < |id| ==> !IsSpace(id[i]) && id[i] != '<' && id[i] != '>'
  }

  function Bracketed(id: Bytes): Bytes {
    ['<'] + id + ['>']
  }

  /** One pair of brackets and the white space around it are taken off, whatever stands between. */
  lemma StripBracketsIs(before: Bytes, id: Bytes, after: Bytes)
    requires AllSpace(before) && AllSpace(after)
    ensures StripBrackets(before + Bracketed(id) + after) == id
  {
    var s := Bracketed(id);
    TrimSpaceIs(before, s, after);
    assert s[0] == '<' && s[|s| - 1] == '>';
    assert ['<'] <= s;
    assert s[1..] == id + ['>'];
    assert s[1..][..|id|] == id;
  }

  /** Without brackets at its ends an ID loses the white space around it and nothing else. */
  lemma PlainIdIsKept(before: Bytes, id: Bytes, after: Bytes)
    requires AllSpace(before) && IsTrim(id) && AllSpace(after)
    requires id != [] ==> id[0] != '<' && id[|id| - 1] != '>'
    ensures StripBrackets(before + id + after) == id
  {
    TrimSpaceIs(before, id, after);
  }

  // ----- words

  predicate IsWord(s: Bytes) {
    s != [] && forall i :: 0 <= i < |s| ==> !IsSpace(s[i])
  }

  /** Words as a client sends them, with some white space between any two. */
  function Spread(words: seq<Bytes>, gaps: seq<Bytes>): Bytes
    requires words != [] && |gaps| == |words| - 1
  {
    if |words| == 1 then words[0] else words[0] + gaps[0] + Spread(words[1..], gaps[1..])
  }

  predicate AreWords(words: seq<Bytes>) {
    words != [] && forall i :: 0 <= i < |words| ==> IsWord(words[i])
  }

  predicate AreGaps(gaps: seq<Bytes>) {
    forall i :: 0 <= i < |gaps| ==> gaps[i] != [] && AllSpace(gaps[i])
  }

  lemma {:induction false} WordIs(w: Bytes, rest: Bytes)
    requires (forall i :: 0 <= i < |w| ==> !IsSpace(w[i])) && (rest != [] ==> IsSpace(rest[0]))
    ensures Word(w + rest) == w
  {
    if w == [] {
      assert w + rest == rest;
    } else {
      assert (w + rest)[1..] == w[1..] + rest;
      WordIs(w[1..], rest);
      assert [w[0]] + w[1..] == w;
    }
  }

  lemma {:induction false} SpreadIsTrim(words: seq<Bytes>, gaps: seq<Bytes>)
    requires AreWords(words) && |gaps| == |words| - 1
    ensures Spread(words, gaps) != [] && IsTrim(Spread(words, gaps))
  {
    if |words| > 1 {
      SpreadIsTrim(words[1..], gaps[1..]);
      var s := Spread(words, gaps);
      assert s[0] == words[0][0];
      assert s[|s| - 1] == Spread(words[1..], gaps[1..])[|Spread(words[1..], gaps[1..])| - 1];
    }
  }

  lemma FieldsStep(before: Bytes, w: Bytes, rest: Bytes)
    requires AllSpace(before) && IsWord(w) && (rest != [] ==> IsSpace(rest[0]))
    ensures Fields(before + (w + rest)) == [w] + Fields(rest)
  {
    assert (w + rest)[0] == w[0];
    TrimLeftIs(before, w + rest);
    WordIs(w, rest);
    assert (w + rest)[|w|..] == rest;
  }

  lemma {:induction false} FieldsAfter(before: Bytes, words: seq<Bytes>, gaps: seq<Bytes>)
    requires AllSpace(before) && AreWords(words) && |gaps| == |words| - 1 && AreGaps(gaps)
    ensures Fields(before + Spread(words, gaps)) == words
    decreases |words|
  {
    if |words| == 1 {
      assert words[0] + [] == words[0];
      FieldsStep(before, words[0], []);
      assert [words[0]] + [] == words;
    } else {
      var rest := gaps[0] + Spread(words[1..], gaps[1..]);
      assert Spread(words, gaps) == words[0] + rest;
      FieldsStep(before, words[0], rest);
      FieldsAfter(gaps[0], words[1..], gaps[1..]);
      assert [words[0]] + words[1..] == words;
    }
  }

  /** Fields gives the words, whatever white space is between them. */
  lemma FieldsOfSpread(words: seq<Bytes>, gaps: seq<Bytes>)
    requires AreWords(words) && |gaps| == |words| - 1 && AreGaps(gaps)
    ensures Fields(Spread(words, gaps)) == words
  {
    FieldsAfter([], words, gaps);
    assert [] + Spread(words, gaps) == Spread(words, gaps);
  }

  /** The text of some words with one space between any two. */
  lemma {:induction false} JoinSpaceIs(words: seq<Bytes>)
    requires words != []
    ensures JoinSpace(words) == Spread(words, seq(|words| - 1, i => [' ']))
  {
    if |words| > 1 {
      var gaps := seq(|words| - 1, i => [' ']);
      assert gaps[1..] == seq(|words[1..]| - 1, i => [' ']);
      JoinSpaceIs(words[1..]);
    }
  }
}
