/** The forms an article can have that was put into the directory rather than posted: which lines make a header,
    line feeds alone, and bare yEnc. */
module ArticleForms {
  import opened ByteStrings
  import opened Wire
  import opened Words
  import opened Articles

  const PATH_NAME: Bytes := "path:"
  const ID_NAME: Bytes := "message-id:"
  const SUBJECT_NAME: Bytes := "subject:"
  const FROM_NAME: Bytes := "from:"
  const DATE_NAME: Bytes := "date:"
  const YBEGIN: Bytes := "=ybegin"

  /** The line starts with this name, in any letter case. */
  predicate StartsWithName(line: Bytes, name: Bytes) {
    |line| >= |name| && SameLetters(line[..|name|], name)
  }

  lemma PrefixOfLower(line: Bytes, name: Bytes)
    requires Lower(name) == name
    ensures name <= Lower(line) <==> StartsWithName(line, name)
  {
    if |line| >= |name| {
      EqualFoldExactly(line[..|name|], name);
      assert Lower(line)[..|name|] == Lower(line[..|name|]);
    }
  }

  lemma NamesAreLower()
    ensures Lower(PATH_NAME) == PATH_NAME && Lower(ID_NAME) == ID_NAME && Lower(SUBJECT_NAME) == SUBJECT_NAME
    ensures Lower(FROM_NAME) == FROM_NAME && Lower(DATE_NAME) == DATE_NAME
  {}

  /** A line makes its block a header block exactly when, with the white space around it taken off, it starts with
      one of five names in any letter case. */
  lemma NamesHeaderExactly(line: Bytes)
    ensures var t := TrimSpace(TrimRightEol(line));
            NamesHeader(line) <==>
              || StartsWithName(t, PATH_NAME) || StartsWithName(t, ID_NAME) || StartsWithName(t, SUBJECT_NAME)
              || StartsWithName(t, FROM_NAME) || StartsWithName(t, DATE_NAME)
  {
    var t := TrimSpace(TrimRightEol(line));
    NamesAreLower();
    PrefixOfLower(t, PATH_NAME);
    PrefixOfLower(t, ID_NAME);
    PrefixOfLower(t, SUBJECT_NAME);
    PrefixOfLower(t, FROM_NAME);
    PrefixOfLower(t, DATE_NAME);
  }

  // ----- line feeds alone

  /** The separator is nowhere in the article. */
  ghost predicate IsNowhere(separator: Bytes, article: Bytes) {
    forall j :: 0 <= j <= |article| ==> !(separator <= article[j..])
  }

  /** The separator starts here and not before. */
  ghost predicate StartsFirstAt(separator: Bytes, article: Bytes, at: nat) {
    at <= |article| && separator <= article[at..] && forall j :: 0 <= j < at ==> !(separator <= article[j..])
  }

  lemma CutAt(head: Bytes, separator: Bytes, body: Bytes)
    requires StartsFirstAt(separator, head + separator + body, |head|)
    ensures Index(head + separator + body, separator) == Some(|head|)
    ensures LooksLikeHeaders(head) ==> SplitAt(head + separator + body, separator) == Some((head, body))
  {
    var article := head + separator + body;
    IndexIsFirst(article, separator, |head|);
    assert article[..|head|] == head;
    assert article[|head| + |separator|..] == body;
  }

  /** The first separator stands between these two, and what is before it looks like headers. */
  ghost predicate Divides(separator: Bytes, article: Bytes, head: Bytes, body: Bytes) {
    && article == head + separator + body
    && StartsFirstAt(separator, article, |head|) && LooksLikeHeaders(head)
  }

  lemma {:induction false} FoundFirst(s: Bytes, separator: Bytes)
    requires Index(s, separator).Some?
    ensures StartsFirstAt(separator, s, Index(s, separator).value)
  {
    var at := Index(s, separator).value;
    if separator <= s {
      assert s[0..] == s;
    } else {
      FoundFirst(s[1..], separator);
      assert s[1..][at - 1..] == s[at..];
      forall j | 0 <= j < at ensures !(separator <= s[j..]) {
        if j == 0 {
          assert s[0..] == s;
        } else {
          assert s[1..][j - 1..] == s[j..];
        }
      }
    }
  }

  lemma PartsAt(article: Bytes, separator: Bytes, at: nat)
    requires at <= |article| && separator <= article[at..]
    ensures article == article[..at] + separator + article[at + |separator|..]
  {
    assert article[at..] == separator + article[at + |separator|..];
    assert article == article[..at] + article[at..];
  }

  lemma SplitDivides(article: Bytes, separator: Bytes, head: Bytes, body: Bytes)
    requires SplitAt(article, separator) == Some((head, body))
    ensures Divides(separator, article, head, body)
  {
    FoundFirst(article, separator);
    PartsAt(article, separator, Index(article, separator).value);
  }

  lemma SplitAtExactly(article: Bytes, separator: Bytes, head: Bytes, body: Bytes)
    ensures SplitAt(article, separator) == Some((head, body)) <==> Divides(separator, article, head, body)
  {
    if SplitAt(article, separator) == Some((head, body)) {
      SplitDivides(article, separator, head, body);
    }
    if Divides(separator, article, head, body) {
      CutAt(head, separator, body);
    }
  }

  /** Where any article is divided: not at all when it is bare yEnc; at its first CRLFCRLF, when what stands before
      that looks like headers; else at its first pair of line feeds, when what stands before those does. */
  lemma DividedExactly(article: Bytes, head: Bytes, body: Bytes)
    ensures HeaderSplit(article) == Some((head, body)) <==>
              && !IsBareYenc(article)
              && (|| Divides([CR, LF, CR, LF], article, head, body)
                  || (Divides([LF, LF], article, head, body)
                      && forall h, b :: !Divides([CR, LF, CR, LF], article, h, b)))
  {
    SplitAtExactly(article, BLANK_CRLF, head, body);
    SplitAtExactly(article, BLANK_LF, head, body);
    forall h, b ensures SplitAt(article, BLANK_CRLF) == Some((h, b)) <==> Divides(BLANK_CRLF, article, h, b) {
      SplitAtExactly(article, BLANK_CRLF, h, b);
    }
  }

  /** An article whose lines end with line feeds alone is divided at its first empty line, if what stands before it
      looks like headers: HEAD serves that, and BODY what stands after. */
  lemma LfArticleSplits(head: Bytes, body: Bytes, id: Bytes)
    requires LooksLikeHeaders(head) && !IsBareYenc(head + [LF, LF] + body)
    requires IsNowhere([CR, LF, CR, LF], head + [LF, LF] + body)
    requires StartsFirstAt([LF, LF], head + [LF, LF] + body, |head|)
    ensures ArticleBody(head + [LF, LF] + body) == body
    ensures ArticleHeaders(id, head + [LF, LF] + body) == head
  {
    IndexAbsent(head + [LF, LF] + body, BLANK_CRLF);
    CutAt(head, BLANK_LF, body);
  }

  /** One whose lines end with CRLF is divided at its first empty line likewise. */
  lemma CrlfArticleSplits(head: Bytes, body: Bytes, id: Bytes)
    requires LooksLikeHeaders(head) && !IsBareYenc(head + [CR, LF, CR, LF] + body)
    requires StartsFirstAt([CR, LF, CR, LF], head + [CR, LF, CR, LF] + body, |head|)
    ensures ArticleBody(head + [CR, LF, CR, LF] + body) == body
    ensures ArticleHeaders(id, head + [CR, LF, CR, LF] + body) == head
  {
    CutAt(head, BLANK_CRLF, body);
  }

  // ----- bare yEnc

  lemma {:induction false} TrimLeftEolIs(eols: Bytes, s: Bytes)
    requires (forall i :: 0 <= i < |eols| ==> IsEol(eols[i])) && (s != [] ==> !IsEol(s[0]))
    ensures TrimLeftEol(eols + s) == s
  {
    if eols == [] {
      assert eols + s == s;
    } else {
      assert (eols + s)[1..] == eols[1..] + s;
      TrimLeftEolIs(eols[1..], s);
    }
  }

  /** An article that starts with =ybegin, after any line ends, is all body, and HEAD makes up a header for it. */
  lemma BareYencIsAllBody(eols: Bytes, rest: Bytes, id: Bytes)
    requires forall i :: 0 <= i < |eols| ==> IsEol(eols[i])
    ensures var article := eols + (YBEGIN + rest);
            ArticleBody(article) == article && ArticleHeaders(id, article) == SynthesizedHeader(id)
  {
    assert YBEGIN[0] == '=';
    assert (YBEGIN + rest)[0] == '=';
    TrimLeftEolIs(eols, YBEGIN + rest);
    assert YBEGIN <= YBEGIN + rest;
  }
}
