/** Which commands a session answers, and to whom: in every session's log, by the command and by what the log says
    of the client. */
module CommandRules {
  import opened ByteStrings
  import opened Wire
  import opened Sessions
  import opened AuthTraces
  import SessionEnds

  predicate IsReader(command: Bytes) {
    command == "GROUP" || command == "STAT" || command == "HEAD" || command == "ARTICLE"
  }

  predicate IsControl(command: Bytes) {
    || command == "CHAOS" || command == "METRICS" || command == "DELETE" || command == "DELETEID"
    || command == "RELOAD"
  }

  predicate IsOpen(command: Bytes) {
    command == "CAPABILITIES" || command == "MODE" || command == "DATE"
  }

  predicate IsOther(command: Bytes) {
    && !IsReader(command) && !IsControl(command) && !IsOpen(command)
    && command != "AUTHINFO" && command != "BODY" && command != "POST" && command != "QUIT"
  }

  /** Answered to a client that is logged in, and 480 to any other. */
  predicate OnlyLoggedIn(reply: Reply, loggedIn: bool) {
    (reply.AuthRequired480? <==> !loggedIn) && (reply.Answered? <==> loggedIn)
  }

  predicate Rules(config: ServerConfig, command: Bytes, reply: Reply, loggedIn: bool) {
    && (IsReader(command) ==> OnlyLoggedIn(reply, loggedIn))
    && (IsControl(command) ==> if config.testControl then OnlyLoggedIn(reply, loggedIn) else reply.Unknown500?)
    && (IsOpen(command) ==> reply.Answered?)
    && (reply.Goodbye205? <==> command == "QUIT")
    && (IsOther(command) ==> reply.Unknown500?)
  }

  lemma ReaderAnswer(config: ServerConfig, st: State, command: Bytes, text: Bytes)
    requires IsReader(command)
    ensures OnlyLoggedIn(Answer(config, st, command, text), st.authenticated)
  {}

  lemma ControlAnswer(config: ServerConfig, st: State, command: Bytes, text: Bytes)
    requires IsControl(command)
    ensures var reply := Answer(config, st, command, text);
            if config.testControl then OnlyLoggedIn(reply, st.authenticated) else reply.Unknown500?
  {}

  lemma OpenAnswer(config: ServerConfig, st: State, command: Bytes, text: Bytes)
    requires IsOpen(command)
    ensures Answer(config, st, command, text).Answered?
  {}

  lemma OtherAnswer(config: ServerConfig, st: State, command: Bytes, text: Bytes)
    requires IsOther(command)
    ensures Answer(config, st, command, text).Unknown500?
  {}

  lemma QuitAnswer(config: ServerConfig, st: State, command: Bytes, text: Bytes)
    ensures Answer(config, st, command, text).Goodbye205? <==> command == "QUIT"
  {}

  lemma SessionCommandsAreApart(command: Bytes)
    requires command == "AUTHINFO" || command == "BODY"
    ensures !IsReader(command) && !IsControl(command) && !IsOpen(command) && !IsOther(command) && command != "QUIT"
  {}

  lemma NoGoodbye(config: ServerConfig, st: State, argument: Bytes, c: Choice)
    ensures !Authinfo(config, st, argument, c.rejectAuth).0.Goodbye205? && !Body(st, c).0.Goodbye205?
  {}

  lemma AnswerRules(config: ServerConfig, st: State, command: Bytes, text: Bytes)
    ensures Rules(config, command, Answer(config, st, command, text), st.authenticated)
  {
    QuitAnswer(config, st, command, text);
    if IsReader(command) {
      ReaderAnswer(config, st, command, text);
    }
    if IsControl(command) {
      ControlAnswer(config, st, command, text);
    }
    if IsOpen(command) {
      OpenAnswer(config, st, command, text);
    }
    if IsOther(command) {
      OtherAnswer(config, st, command, text);
    }
  }

  lemma DispatchRules(config: ServerConfig, st: State, command: Bytes, argument: Bytes, c: Choice)
    ensures Rules(config, command, Dispatch(config, st, command, argument, c).0, st.authenticated)
  {
    NoGoodbye(config, st, argument, c);
    if command == "AUTHINFO" || command == "BODY" {
      SessionCommandsAreApart(command);
    } else {
      AnswerRules(config, st, command, c.text);
    }
  }

  lemma TurnRules(config: ServerConfig, st: State, raw: Bytes, c: Choice)
    ensures Rules(config, RunLine(config, st, raw, c).command, RunLine(config, st, raw, c).reply, st.authenticated)
  {
    DispatchRules(config, st, SplitCommand(raw).0, SplitCommand(raw).1, c);
  }

  /** Event k, if it is a command, follows the rules for a client that is logged in as the log before it says, and
      ends the session if it is QUIT. */
  ghost predicate Ruled(config: ServerConfig, log: seq<Event>, k: nat)
    requires k < |log|
  {
    log[k].Ran? ==>
      && Rules(config, log[k].turn.command, log[k].turn.reply, LoggedIn(log[..k]))
      && (log[k].turn.command == "QUIT" ==> k == |log| - 1)
  }

  lemma GroundedIsRuled(config: ServerConfig, before: seq<Event>, turn: Turn)
    requires ComesFrom(config, before, turn)
    ensures Rules(config, turn.command, turn.reply, LoggedIn(before))
  {
    var st :| Tells(before, st) && CanRun(config, st, turn);
    var raw, c :| RunLine(config, st, raw, c) == turn;
    TurnRules(config, st, raw, c);
  }

  lemma QuitEnds(config: ServerConfig, command: Bytes, reply: Reply, loggedIn: bool)
    requires Rules(config, command, reply, loggedIn) && command == "QUIT"
    ensures Ends(reply)
  {}

  lemma EventIsRuled(config: ServerConfig, log: seq<Event>, k: nat)
    requires k < |log| && Grounded(config, log, k) && SessionEnds.EndsLast(log)
    ensures Ruled(config, log, k)
  {
    if log[k].Ran? {
      GroundedIsRuled(config, log[..k], log[k].turn);
      if log[k].turn.command == "QUIT" {
        QuitEnds(config, log[k].turn.command, log[k].turn.reply, LoggedIn(log[..k]));
      }
    }
  }

  ghost predicate AllRuled(config: ServerConfig, log: seq<Event>) {
    forall k: nat | k < |log| :: Ruled(config, log, k)
  }

  lemma GroundedLogIsRuled(config: ServerConfig, log: seq<Event>)
    requires AllGrounded(config, log) && SessionEnds.EndsLast(log)
    ensures AllRuled(config, log)
  {
    forall k: nat | k < |log| ensures Ruled(config, log, k) {
      EventIsRuled(config, log, k);
    }
  }

  /** In every session, whatever the client sends: GROUP, STAT, HEAD and ARTICLE are answered to clients that are
      logged in and 480 to all others; so are the control commands where test control is on, and elsewhere they are
      unknown; CAPABILITIES, MODE and DATE are answered to everyone; QUIT ends the session; and any other command is
      unknown. */
  lemma EverySessionIsRuled(config: ServerConfig, input: Bytes, oracle: Oracle)
    ensures AllRuled(config, Serve(Commands(config), input, FIRST_STATE, oracle, 0))
  {
    EverySessionIsGrounded(config, input, oracle);
    SessionEnds.OnlyTheLastEnds(Commands(config), input, FIRST_STATE, oracle, 0);
    GroundedLogIsRuled(config, Serve(Commands(config), input, FIRST_STATE, oracle, 0));
  }
}
