/** What a session's log says about who it speaks for: the loop's three variables are functions of which
    verdict, USER and injected 480 came last (section 2.3 of RFC 4643). */
module AuthTraces {
  import opened ByteStrings
  import opened Wire
  import opened Sessions
  import Posting

  predicate IsVerdict(e: Event) {
    e.Ran? && (e.turn.reply.Accepted281? || e.turn.reply.Rejected481?)
  }

  predicate IsInjected480(e: Event) {
    e.Ran? && e.turn.reply.InjectedReauth480?
  }

  predicate IsUser(e: Event) {
    e.Ran? && e.turn.reply.NeedPassword381?
  }

  datatype Kind = Verdict | VerdictOr480 | VerdictOrUser

  predicate Of(kind: Kind, e: Event) {
    || IsVerdict(e)
    || (kind.VerdictOr480? && IsInjected480(e))
    || (kind.VerdictOrUser? && IsUser(e))
  }

  /** Event i is the latest of its kind. */
  predicate Latest(kind: Kind, log: seq<Event>, i: nat) {
    i < |log| && Of(kind, log[i]) && forall j :: i < j < |log| ==> !Of(kind, log[j])
  }

  /** The latest verdict is 281. */
  ghost predicate LoggedIn(log: seq<Event>) {
    exists i: nat :: Latest(Verdict, log, i) && log[i].turn.reply.Accepted281?
  }

  /** The latest verdict or injected 480 is no 281. */
  ghost predicate MustReauthenticate(log: seq<Event>) {
    exists i: nat :: Latest(VerdictOr480, log, i) && !log[i].turn.reply.Accepted281?
  }

  /** The latest verdict or USER is a USER that gave this name. */
  ghost predicate HasNamed(log: seq<Event>, user: Bytes) {
    exists i: nat :: Latest(VerdictOrUser, log, i) && log[i].turn.reply == NeedPassword381(user)
  }

  /** The loop's variables say what the log says. */
  ghost predicate Tells(log: seq<Event>, st: State) {
    && (st.authenticated <==> LoggedIn(log))
    && (st.reauthRequired <==> MustReauthenticate(log))
    && (forall user :: HasNamed(log, user) <==> user != [] && user == st.pendingUser)
  }

  // ----- one event more

  lemma LatestOfMore(kind: Kind, log: seq<Event>, e: Event, i: nat)
    ensures Latest(kind, log + [e], i) <==> if Of(kind, e) then i == |log| else Latest(kind, log, i)
  {
    var more := log + [e];
    assert more[|log|] == e;
    assert forall j :: 0 <= j < |log| ==> more[j] == log[j];
  }

  lemma LoggedInMore(log: seq<Event>, e: Event)
    ensures LoggedIn(log + [e]) <==> if Of(Verdict, e) then e.turn.reply.Accepted281? else LoggedIn(log)
  {
    var more := log + [e];
    if Of(Verdict, e) {
      LatestOfMore(Verdict, log, e, |log|);
    }
    forall i: nat ensures Latest(Verdict, more, i) <==> if Of(Verdict, e) then i == |log| else Latest(Verdict, log, i) {
      LatestOfMore(Verdict, log, e, i);
    }
  }

  lemma MustReauthenticateMore(log: seq<Event>, e: Event)
    ensures MustReauthenticate(log + [e]) <==>
            if Of(VerdictOr480, e) then !e.turn.reply.Accepted281? else MustReauthenticate(log)
  {
    var more := log + [e];
    if Of(VerdictOr480, e) {
      LatestOfMore(VerdictOr480, log, e, |log|);
    }
    forall i: nat
      ensures Latest(VerdictOr480, more, i)
              <==> if Of(VerdictOr480, e) then i == |log| else Latest(VerdictOr480, log, i)
    {
      LatestOfMore(VerdictOr480, log, e, i);
    }
  }

  lemma HasNamedMore(log: seq<Event>, e: Event, user: Bytes)
    ensures HasNamed(log + [e], user) <==>
            if Of(VerdictOrUser, e) then e.turn.reply == NeedPassword381(user) else HasNamed(log, user)
  {
    var more := log + [e];
    if Of(VerdictOrUser, e) {
      LatestOfMore(VerdictOrUser, log, e, |log|);
    }
    forall i: nat
      ensures Latest(VerdictOrUser, more, i)
              <==> if Of(VerdictOrUser, e) then i == |log| else Latest(VerdictOrUser, log, i)
    {
      LatestOfMore(VerdictOrUser, log, e, i);
    }
  }

  // ----- what one reply says about the variables

  /** How a reply and the state after it follow from the state before. */
  ghost predicate Effect(config: ServerConfig, st: State, reply: Reply, next: State) {
    match reply
    case Accepted281(user, password) =>
      && next == State([], true, false) && user != [] && user == st.pendingUser
      && user == config.username && password == config.password
    case OutOfSequence482 => next == st && st.pendingUser == []
    case Rejected481 => next == State([], false, true) && st.pendingUser != []
    case NeedPassword381(user) => next == st.(pendingUser := user) && user != []
    case InjectedReauth480 => next == st.(reauthRequired := true) && st.authenticated && !st.reauthRequired
    case BodyServed(_) => next == st && st.authenticated && !st.reauthRequired
    case BodyEnded(_) => next == st && st.authenticated && !st.reauthRequired
    case AuthRequired480 => next == st && !st.authenticated
    case ReauthPending480 => next == st && st.authenticated && st.reauthRequired
    case SendArticle340 => next == st && st.authenticated
    case _ => next == st
  }

  lemma AuthinfoEffect(config: ServerConfig, st: State, argument: Bytes, reject: bool)
    ensures var (reply, next) := Authinfo(config, st, argument, reject); Effect(config, st, reply, next)
  {}

  lemma BodyEffect(config: ServerConfig, st: State, c: Choice)
    ensures var (reply, next) := Body(st, c); Effect(config, st, reply, next)
  {}

  lemma AnswerEffect(config: ServerConfig, st: State, reply: Reply)
    requires reply.SendArticle340? ==> st.authenticated
    requires reply.AuthRequired480? ==> !st.authenticated
    requires reply.SendArticle340? || reply.Goodbye205? || reply.Answered? || reply.AuthRequired480?
             || reply.Unknown500?
    ensures Effect(config, st, reply, st)
  {}

  lemma DispatchEffect(config: ServerConfig, st: State, command: Bytes, argument: Bytes, c: Choice)
    ensures var (reply, next) := Dispatch(config, st, command, argument, c); Effect(config, st, reply, next)
  {
    AuthinfoEffect(config, st, argument, c.rejectAuth);
    BodyEffect(config, st, c);
    AnswerEffect(config, st, Answer(config, st, command, c.text));
  }

  predicate IsBodyReply(reply: Reply) {
    reply.ReauthPending480? || reply.InjectedReauth480? || reply.BodyEnded? || reply.BodyServed?
  }

  /** Some line, however it is answered, makes this turn from this state. */
  ghost predicate CanRun(config: ServerConfig, st: State, turn: Turn) {
    exists raw, c :: RunLine(config, st, raw, c) == turn
  }

  /** A turn the server can take from this state. */
  ghost predicate Follows(config: ServerConfig, st: State, turn: Turn) {
    && Effect(config, st, turn.reply, turn.state)
    && CanRun(config, st, turn)
    && (turn.command == "BODY" ==> turn.reply.AuthRequired480? || IsBodyReply(turn.reply))
    && (turn.command == "POST" ==> turn.reply.AuthRequired480? || turn.reply.SendArticle340?)
  }

  lemma TurnFollows(config: ServerConfig, st: State, raw: Bytes, c: Choice)
    ensures Follows(config, st, RunLine(config, st, raw, c))
  {
    DispatchEffect(config, st, SplitCommand(raw).0, SplitCommand(raw).1, c);
  }

  lemma TellsMore(config: ServerConfig, log: seq<Event>, st: State, turn: Turn)
    requires Tells(log, st) && Follows(config, st, turn)
    ensures Tells(log + [Ran(turn)], turn.state)
  {
    LoggedInMore(log, Ran(turn));
    MustReauthenticateMore(log, Ran(turn));
    forall user
      ensures HasNamed(log + [Ran(turn)], user) <==> user != [] && user == turn.state.pendingUser
    {
      HasNamedMore(log, Ran(turn), user);
    }
  }

  lemma TellsStill(log: seq<Event>, st: State, e: Event)
    requires Tells(log, st) && !e.Ran?
    ensures Tells(log + [e], st)
  {
    LoggedInMore(log, e);
    MustReauthenticateMore(log, e);
    forall user
      ensures HasNamed(log + [e], user) <==> user != [] && user == st.pendingUser
    {
      HasNamedMore(log, e, user);
    }
  }

  // ----- PASS

  /** The argument of an AUTHINFO PASS, cut into its fields. */
  predicate IsPass(argument: Bytes) {
    |Fields(argument)| >= 2 && Upper(Fields(argument)[0]) == "PASS"
  }

  function PassOf(argument: Bytes): Bytes
    requires IsPass(argument)
  {
    JoinSpace(Fields(argument)[1..])
  }

  /** PASS is judged by the log and the credentials alone, but for the injected rejections: 281 exactly when
      the configured user was named last and the configured password is given, 482 exactly when no one was. */
  lemma PassIsJudgedByLog(config: ServerConfig, before: seq<Event>, st: State, argument: Bytes, reject: bool)
    requires Tells(before, st) && IsPass(argument)
    ensures var reply := Authinfo(config, st, argument, reject).0;
            && (reply.Accepted281? <==>
                  HasNamed(before, config.username) && PassOf(argument) == config.password && !reject)
            && (reply.OutOfSequence482? <==> forall user :: !HasNamed(before, user))
            && (reply.Rejected481? <==> !reply.Accepted281? && !reply.OutOfSequence482?)
  {
    assert HasNamed(before, st.pendingUser) <==> st.pendingUser != [];
  }

  // ----- whole sessions

  /** What the log must already hold when this reply is given. */
  ghost predicate StandsOn(config: ServerConfig, before: seq<Event>, reply: Reply) {
    match reply
    case Accepted281(user, password) =>
      HasNamed(before, user) && user == config.username && password == config.password
    case Rejected481 => exists user :: HasNamed(before, user)
    case OutOfSequence482 => forall user :: !HasNamed(before, user)
    case AuthRequired480 => !LoggedIn(before)
    case ReauthPending480 => LoggedIn(before) && MustReauthenticate(before)
    case InjectedReauth480 => LoggedIn(before) && !MustReauthenticate(before)
    case BodyEnded(_) => LoggedIn(before) && !MustReauthenticate(before)
    case BodyServed(_) => LoggedIn(before) && !MustReauthenticate(before)
    case SendArticle340 => LoggedIn(before)
    case _ => true
  }

  /** BODY and POST are answered by what the log says: BODY reaches the article exactly when the latest verdict
      is a 281 and no injected 480 came after it. */
  ghost predicate AnswersByLog(before: seq<Event>, turn: Turn) {
    && (turn.command == "BODY" ==>
          && (turn.reply.AuthRequired480? <==> !LoggedIn(before))
          && (turn.reply.ReauthPending480? <==> LoggedIn(before) && MustReauthenticate(before))
          && (turn.reply.InjectedReauth480? || turn.reply.BodyEnded? || turn.reply.BodyServed? <==>
              LoggedIn(before) && !MustReauthenticate(before)))
    && (turn.command == "POST" ==> (turn.reply.SendArticle340? <==> LoggedIn(before)))
  }

  lemma ReplyStandsOnLog(config: ServerConfig, before: seq<Event>, st: State, turn: Turn)
    requires Tells(before, st) && Follows(config, st, turn)
    ensures StandsOn(config, before, turn.reply) && AnswersByLog(before, turn)
  {
    assert turn.reply.Rejected481? ==> HasNamed(before, st.pendingUser);
  }

  function StateAfter(st: State, e: Event): State {
    if e.Ran? then e.turn.state else st
  }

  /** Each command's reply and new state follow from the state the events before it left. */
  ghost predicate Chained(config: ServerConfig, st: State, events: seq<Event>)
    decreases |events|
  {
    events != [] ==>
      && (events[0].Ran? ==> Follows(config, st, events[0].turn))
      && Chained(config, StateAfter(st, events[0]), events[1..])
  }

  lemma ChainedFirst(config: ServerConfig, st: State, turn: Turn, more: seq<Event>)
    requires Follows(config, st, turn) && Chained(config, turn.state, more)
    ensures Chained(config, st, [Ran(turn)] + more)
  {}

  lemma ChainedQuiet(config: ServerConfig, st: State, e: Event, more: seq<Event>)
    requires !e.Ran? && Chained(config, st, more)
    ensures Chained(config, st, [e] + more)
  {}

  lemma {:induction false} ServeIsChained(config: ServerConfig, input: Bytes, st: State, oracle: Oracle, n: nat)
    ensures Chained(config, st, Serve(Commands(config), input, st, oracle, n))
    decreases |input|, 0
  {
    if NextLine(input).Line? {
      var turn := RunLine(config, st, NextLine(input).line, oracle(n));
      TurnFollows(config, st, NextLine(input).line, oracle(n));
      TurnIsChained(config, st, turn, NextLine(input).rest, oracle, n);
    }
  }

  lemma QuietIsChained(config: ServerConfig, st: State, turn: Turn, e: Event, more: seq<Event>)
    requires Follows(config, st, turn) && !e.Ran? && Chained(config, turn.state, more)
    ensures Chained(config, st, [Ran(turn), e] + more)
  {
    ChainedQuiet(config, turn.state, e, more);
    ChainedFirst(config, st, turn, [e] + more);
    assert [Ran(turn)] + ([e] + more) == [Ran(turn), e] + more;
  }

  lemma {:induction false} PostIsChained(config: ServerConfig, st: State, turn: Turn, rest: Bytes,
                                         oracle: Oracle, n: nat)
    requires Follows(config, st, turn)
    ensures Chained(config, st, AfterPost(Commands(config), turn, rest, oracle, n))
    decreases |rest|, 1
  {
    var stopped := Posting.StoppedBy(rest, oracle(n).fault);
    if stopped.Some? || ReadBlock(rest).Block? {
      var post := if stopped.Some? then PostBroken else PostedEvent(ReadBlock(rest).lines, oracle(n));
      var unread := if stopped.Some? then stopped.value else ReadBlock(rest).rest;
      ServeIsChained(config, unread, turn.state, oracle, n + 1);
      QuietIsChained(config, st, turn, post, Serve(Commands(config), unread, turn.state, oracle, n + 1));
    } else {
      var last := if ReadBlock(rest).Overlong? then PostTooLong else PostCutOff;
      QuietIsChained(config, st, turn, last, []);
      assert [Ran(turn), last] + [] == [Ran(turn), last];
    }
  }

  lemma {:induction false} TurnIsChained(config: ServerConfig, st: State, turn: Turn, rest: Bytes,
                                         oracle: Oracle, n: nat)
    requires Follows(config, st, turn)
    ensures Chained(config, st, AfterTurn(Commands(config), turn, rest, oracle, n))
    decreases |rest|, 2
  {
    if Ends(turn.reply) {
      ChainedFirst(config, st, turn, []);
    } else if !turn.reply.SendArticle340? {
      ServeIsChained(config, rest, turn.state, oracle, n + 1);
      ChainedFirst(config, st, turn, Serve(Commands(config), rest, turn.state, oracle, n + 1));
    } else {
      PostIsChained(config, st, turn, rest, oracle, n);
    }
  }

  /** The turn was made from the state the log before it tells. */
  ghost predicate ComesFrom(config: ServerConfig, before: seq<Event>, turn: Turn) {
    exists st :: Tells(before, st) && CanRun(config, st, turn)
  }

  /** Event k's reply stands on the log before it, and the log with it tells the state it leaves. */
  ghost predicate Grounded(config: ServerConfig, log: seq<Event>, k: nat)
    requires k < |log|
  {
    log[k].Ran? ==>
      && ComesFrom(config, log[..k], log[k].turn)
      && StandsOn(config, log[..k], log[k].turn.reply)
      && AnswersByLog(log[..k], log[k].turn)
      && Tells(log[..k + 1], log[k].turn.state)
  }

  ghost predicate AllGrounded(config: ServerConfig, log: seq<Event>) {
    forall k: nat | k < |log| :: Grounded(config, log, k)
  }

  lemma {:induction false} ChainIsGrounded(config: ServerConfig, so: seq<Event>, st: State, events: seq<Event>, k: nat)
    requires Tells(so, st) && Chained(config, st, events) && |so| <= k < |so + events|
    ensures Grounded(config, so + events, k)
    decreases |events|
  {
    var e := events[0];
    assert so + events == (so + [e]) + events[1..];
    if e.Ran? {
      TellsMore(config, so, st, e.turn);
      ReplyStandsOnLog(config, so, st, e.turn);
    } else {
      TellsStill(so, st, e);
    }
    if k == |so| {
      assert (so + events)[..k] == so && (so + events)[..k + 1] == so + [e];
    } else {
      ChainIsGrounded(config, so + [e], StateAfter(st, e), events[1..], k);
    }
  }

  /** In every session, whatever the client sends: each reply stands on what the log already says, and the
      loop's variables after each command are what the log says then. */
  lemma EverySessionIsGrounded(config: ServerConfig, input: Bytes, oracle: Oracle)
    ensures AllGrounded(config, Serve(Commands(config), input, FIRST_STATE, oracle, 0))
  {
    var log := Serve(Commands(config), input, FIRST_STATE, oracle, 0);
    ServeIsChained(config, input, FIRST_STATE, oracle, 0);
    assert [] + log == log;
    forall k: nat | k < |log| ensures Grounded(config, log, k) {
      ChainIsGrounded(config, [], FIRST_STATE, log, k);
    }
  }
}
