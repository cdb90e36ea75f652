/** AUTHINFO from the bytes a client sends (section 2.3 of RFC 4643): who is named, and who is let in. */
module AuthLines {
  import opened ByteStrings
  import opened Wire
  import opened Words
  import opened Sessions
  import opened AuthTraces
  import opened Framing

  const AUTHINFO: Bytes := "AUTHINFO"
  const USER: Bytes := "USER"
  const PASS: Bytes := "PASS"

  /** White space that can stand in a line. */
  predicate AreBlanks(s: Bytes) {
    forall i :: 0 <= i < |s| ==> s[i] == ' ' || s[i] == '\t'
  }

  /** AUTHINFO, a subcommand and some words, as a client sends them: either may be in any letter case, and there may
      be more white space than one space between words and after them. */
  datatype AuthLine = AuthLine(verb: Bytes, sub: Bytes, words: seq<Bytes>, gaps: seq<Bytes>, trail: Bytes)

  predicate HasWords(a: AuthLine) {
    && SameLetters(a.verb, AUTHINFO)
    && AreWords(a.words) && |a.gaps| == |a.words|
    && (forall i :: 0 <= i < |a.gaps| ==> a.gaps[i] != [] && AreBlanks(a.gaps[i]))
    && AreBlanks(a.trail)
  }

  predicate IsAuthLine(a: AuthLine, sub: Bytes) {
    HasWords(a) && SameLetters(a.sub, sub)
  }

  function Argument(a: AuthLine): Bytes
    requires |a.gaps| == |a.words|
  {
    Spread([a.sub] + a.words, a.gaps)
  }

  function Encoded(a: AuthLine): Bytes
    requires |a.gaps| == |a.words|
  {
    a.verb + [' '] + (Argument(a) + a.trail) + CRLF
  }

  lemma LettersAreAWord(s: Bytes, t: Bytes)
    requires SameLetters(s, t) && t != [] && forall i :: 0 <= i < |t| ==> 'A' <= t[i] <= 'Z'
    ensures IsWord(s) && OneLine(s) && ' ' !in s && Clean(s) && Upper(s) == t
  {
    UpperExactly(s, t);
    TrimRightEolIs(s, |s|);
    assert s[..|s|] == s;
  }

  lemma CapitalsAre()
    ensures forall i :: 0 <= i < |AUTHINFO| ==> 'A' <= AUTHINFO[i] <= 'Z'
    ensures forall i :: 0 <= i < |USER| ==> 'A' <= USER[i] <= 'Z'
    ensures forall i :: 0 <= i < |PASS| ==> 'A' <= PASS[i] <= 'Z'
  {}

  lemma BlanksAreSpace(s: Bytes)
    requires AreBlanks(s)
    ensures AllSpace(s) && OneLine(s) && forall i :: 0 <= i < |s| ==> !IsEol(s[i])
  {}

  lemma {:induction false} SpreadHasNoEol(words: seq<Bytes>, gaps: seq<Bytes>)
    requires AreWords(words) && |gaps| == |words| - 1 && forall i :: 0 <= i < |gaps| ==> AreBlanks(gaps[i])
    ensures forall i :: 0 <= i < |Spread(words, gaps)| ==> !IsEol(Spread(words, gaps)[i])
  {
    if |words| > 1 {
      SpreadHasNoEol(words[1..], gaps[1..]);
    }
  }

  lemma NoEolIsClean(s: Bytes)
    requires forall i :: 0 <= i < |s| ==> !IsEol(s[i])
    ensures Clean(s)
  {
    TrimRightEolIs(s, |s|);
    assert s[..|s|] == s;
  }

  lemma TrimTrail(s: Bytes, trail: Bytes)
    requires IsTrim(s) && AllSpace(trail)
    ensures TrimSpace(s + trail) == s
  {
    TrimSpaceIs([], s, trail);
    assert [] + s + trail == s + trail;
  }

  lemma ArgumentIsTrimmed(verb: Bytes, argument: Bytes, trail: Bytes)
    requires ' ' !in verb && Clean(verb) && argument != [] && IsTrim(argument)
    requires forall i :: 0 <= i < |argument| ==> !IsEol(argument[i])
    requires AreBlanks(trail)
    ensures SplitCommand(verb + [' '] + (argument + trail) + CRLF) == (Upper(verb), argument)
  {
    BlanksAreSpace(trail);
    NoEolIsClean(argument + trail);
    CommandLineSplits(verb, argument + trail);
    TrimTrail(argument, trail);
  }

  /** The command loop cuts such a line into the command and the subcommand with its words. */
  lemma WordsSplit(a: AuthLine)
    requires HasWords(a) && IsWord(a.sub)
    ensures SplitCommand(Encoded(a)) == (AUTHINFO, Argument(a))
    ensures Fields(Argument(a)) == [a.sub] + a.words
  {
    CapitalsAre();
    LettersAreAWord(a.verb, AUTHINFO);
    var words := [a.sub] + a.words;
    forall i | 0 <= i < |a.gaps| ensures AllSpace(a.gaps[i]) {
      BlanksAreSpace(a.gaps[i]);
    }
    FieldsOfSpread(words, a.gaps);
    SpreadIsTrim(words, a.gaps);
    SpreadHasNoEol(words, a.gaps);
    ArgumentIsTrimmed(a.verb, Argument(a), a.trail);
  }

  lemma AuthLineSplits(a: AuthLine, sub: Bytes)
    requires IsAuthLine(a, sub) && (sub == USER || sub == PASS)
    ensures SplitCommand(Encoded(a)) == (AUTHINFO, Argument(a))
    ensures Fields(Argument(a)) == [a.sub] + a.words && Upper(a.sub) == sub
  {
    CapitalsAre();
    LettersAreAWord(a.sub, sub);
    WordsSplit(a);
  }

  lemma AuthWords(a: AuthLine, sub: Bytes)
    requires IsAuthLine(a, sub) && (sub == USER || sub == PASS)
    ensures |Fields(Argument(a))| >= 2 && Upper(Fields(Argument(a))[0]) == sub
    ensures JoinSpace(Fields(Argument(a))[1..]) == JoinSpace(a.words)
  {
    AuthLineSplits(a, sub);
    assert ([a.sub] + a.words)[1..] == a.words;
  }

  lemma DispatchesAuthinfo(config: ServerConfig, st: State, raw: Bytes, c: Choice)
    requires SplitCommand(raw).0 == AUTHINFO
    ensures RunLine(config, st, raw, c).reply == Authinfo(config, st, SplitCommand(raw).1, c.rejectAuth).0
    ensures RunLine(config, st, raw, c).state == Authinfo(config, st, SplitCommand(raw).1, c.rejectAuth).1
  {}

  lemma SubcommandExactly(sub: Bytes)
    ensures (Upper(sub) == USER <==> SameLetters(sub, USER)) && (Upper(sub) == PASS <==> SameLetters(sub, PASS))
  {
    CapitalsAre();
    UpperExactly(sub, USER);
    UpperExactly(sub, PASS);
  }

  /** A subcommand other than USER and PASS is refused and changes nothing. */
  lemma OtherSubcommandIsRefused(config: ServerConfig, st: State, a: AuthLine, c: Choice)
    requires HasWords(a) && IsWord(a.sub) && !SameLetters(a.sub, USER) && !SameLetters(a.sub, PASS)
    ensures RunLine(config, st, Encoded(a), c).reply == UnknownAuthinfo501
    ensures RunLine(config, st, Encoded(a), c).state == st
  {
    WordsSplit(a);
    SubcommandExactly(a.sub);
    DispatchesAuthinfo(config, st, Encoded(a), c);
  }

  lemma WordHasNoEol(s: Bytes)
    requires IsWord(s)
    ensures IsTrim(s) && forall i :: 0 <= i < |s| ==> !IsEol(s[i])
  {
    assert forall i :: 0 <= i < |s| ==> !IsSpace(s[i]);
  }

  lemma OneField(s: Bytes)
    requires IsWord(s)
    ensures |Fields(s)| == 1
  {
    FieldsOfSpread([s], []);
  }

  lemma AloneSplits(verb: Bytes, sub: Bytes, trail: Bytes)
    requires SameLetters(verb, AUTHINFO) && IsWord(sub) && AreBlanks(trail)
    ensures SplitCommand(verb + [' '] + (sub + trail) + CRLF) == (AUTHINFO, sub)
  {
    CapitalsAre();
    LettersAreAWord(verb, AUTHINFO);
    WordHasNoEol(sub);
    ArgumentIsTrimmed(verb, sub, trail);
  }

  /** So is a subcommand alone, whichever it is. */
  lemma SubcommandAloneIsRefused(config: ServerConfig, st: State, verb: Bytes, sub: Bytes, trail: Bytes, c: Choice)
    requires SameLetters(verb, AUTHINFO) && IsWord(sub) && AreBlanks(trail)
    ensures var turn := RunLine(config, st, verb + [' '] + (sub + trail) + CRLF, c);
            turn.reply == Usage501 && turn.state == st
  {
    AloneSplits(verb, sub, trail);
    OneField(sub);
    DispatchesAuthinfo(config, st, verb + [' '] + (sub + trail) + CRLF, c);
  }

  /** USER names exactly the words sent with it, one space between any two, and leaves the rest of the state. */
  lemma UserNames(config: ServerConfig, st: State, a: AuthLine, c: Choice)
    requires IsAuthLine(a, USER)
    ensures RunLine(config, st, Encoded(a), c).reply == NeedPassword381(JoinSpace(a.words))
    ensures RunLine(config, st, Encoded(a), c).state == st.(pendingUser := JoinSpace(a.words))
  {
    AuthLineSplits(a, USER);
    AuthWords(a, USER);
    DispatchesAuthinfo(config, st, Encoded(a), c);
  }

  /** The answer to PASS from someone named, and what it leaves. */
  predicate IsVerdictOn(config: ServerConfig, user: Bytes, password: Bytes, reject: bool, turn: Turn) {
    && (turn.reply.Accepted281? <==> user == config.username && password == config.password && !reject)
    && (turn.reply.Accepted281? ==> turn.reply == Accepted281(user, password))
    && (turn.reply.Rejected481? <==> !turn.reply.Accepted281?)
    && turn.state == State([], turn.reply.Accepted281?, !turn.reply.Accepted281?)
  }

  /** PASS lets in whoever was named and gives the password, if both are the configured ones. */
  lemma PassLetsIn(config: ServerConfig, st: State, a: AuthLine, c: Choice)
    requires IsAuthLine(a, PASS) && st.pendingUser != []
    ensures IsVerdictOn(config, st.pendingUser, JoinSpace(a.words), c.rejectAuth, RunLine(config, st, Encoded(a), c))
  {
    AuthLineSplits(a, PASS);
    AuthWords(a, PASS);
    DispatchesAuthinfo(config, st, Encoded(a), c);
  }

  lemma JoinedIsNamed(words: seq<Bytes>)
    requires AreWords(words)
    ensures JoinSpace(words) != []
    ensures |words| == 1 ==> JoinSpace(words) == words[0]
    ensures |words| == 2 ==> JoinSpace(words) == words[0] + [' '] + words[1]
  {
    JoinSpaceIs(words);
    SpreadIsTrim(words, seq(|words| - 1, i => [' ']));
  }

  lemma NamedState(st: State, name: Bytes)
    ensures st.(pendingUser := name).pendingUser == name
  {}

  /** From any state, USER and then PASS without an injected rejection: 281 if and only if both are the configured
      ones, each word for word with one space between any two words; and then the session is authenticated, and
      otherwise it is not. */
  lemma LogsInExactlyWithTheCredentials(config: ServerConfig, st: State, user: AuthLine, pass: AuthLine,
                                        c: Choice, d: Choice)
    requires IsAuthLine(user, USER) && IsAuthLine(pass, PASS) && !d.rejectAuth
    ensures RunLine(config, st, Encoded(user), c).reply == NeedPassword381(JoinSpace(user.words))
    ensures IsVerdictOn(config, JoinSpace(user.words), JoinSpace(pass.words), false,
                        RunLine(config, RunLine(config, st, Encoded(user), c).state, Encoded(pass), d))
  {
    UserNames(config, st, user, c);
    JoinedIsNamed(user.words);
    NamedState(st, JoinSpace(user.words));
    PassLetsIn(config, st.(pendingUser := JoinSpace(user.words)), pass, d);
  }
}
