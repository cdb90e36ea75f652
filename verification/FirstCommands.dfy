/** Which connections count as sessions: the first command, from the bytes the client sends. */
module FirstCommands {
  import opened ByteStrings
  import opened Wire
  import opened Words
  import opened MaxRegisters
  import opened Connections
  import Sessions
  import AuthLines

  const MODE: Bytes := "MODE"
  const CONTROL: Bytes := "CONTROL"

  /** MODE CONTROL: the command and its one word, in any letter case, with white space around the word. */
  predicate DeclaresControl(command: Bytes, argument: Bytes) {
    command == MODE && SameLetters(TrimSpace(argument), CONTROL)
  }

  lemma DeclaredExactly(command: Bytes, argument: Bytes)
    ensures IsControlDeclaration(command, argument) <==> DeclaresControl(command, argument)
  {
    EqualFoldExactly(TrimSpace(argument), CONTROL);
  }

  /** A connection's first command makes it a session, counted at once and offered to the peak, unless it declares a
      control channel, which leaves the count and the peak alone. */
  lemma OnlyControlIsNotCounted(w: World, k: nat, command: Bytes, argument: Bytes)
    requires Enabled(w, FirstCommand(k, command, argument))
    ensures var v := Apply(w, FirstCommand(k, command, argument));
            && v.active == w.active
            && (DeclaresControl(command, argument) ==>
                  v.conns[k].phase == Declared && v.sessions == w.sessions && v.peak == w.peak)
            && (!DeclaresControl(command, argument) ==>
                  && v.conns[k].phase.Counted? && v.sessions == w.sessions + 1
                  && v.peak.recorders == w.peak.recorders + [Wants(w.sessions + 1)])
  {
    DeclaredExactly(command, argument);
  }

  lemma CapitalsAre()
    ensures forall i :: 0 <= i < |MODE| ==> 'A' <= MODE[i] <= 'Z'
    ensures forall i :: 0 <= i < |CONTROL| ==> 'A' <= CONTROL[i] <= 'Z'
  {}

  /** On the wire: the two words in any letter case, blanks after them, and the line's end. */
  lemma ControlLineDeclares(verb: Bytes, word: Bytes, trail: Bytes)
    requires SameLetters(verb, MODE) && SameLetters(word, CONTROL) && AuthLines.AreBlanks(trail)
    ensures var (command, argument) := Sessions.SplitCommand(verb + [' '] + (word + trail) + CRLF);
            DeclaresControl(command, argument)
  {
    CapitalsAre();
    AuthLines.LettersAreAWord(verb, MODE);
    AuthLines.LettersAreAWord(word, CONTROL);
    assert forall i :: 0 <= i < |word| ==> !IsEol(word[i]);
    AuthLines.ArgumentIsTrimmed(verb, word, trail);
    TrimSpaceIs([], word, []);
    assert [] + word + [] == word;
  }
}
