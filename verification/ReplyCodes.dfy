/** The three-digit codes of what the server writes (section 3.2 of RFC 3977), as each reply, outcome of a post and
    greeting has its own. */
module ReplyCodes {
  import opened ByteStrings
  import opened Wire
  import opened Sessions
  import ArticleStores
  import Posting

  predicate HasCode(line: Bytes, a: Byte, b: Byte, c: Byte) {
    |line| > 4 && line[0] == a && line[1] == b && line[2] == c && line[3] == ' '
  }

  lemma AuthLineCodes()
    ensures HasCode(UNKNOWN_AUTHINFO_LINE, '5', '0', '1') && HasCode(NEED_PASSWORD_LINE, '3', '8', '1')
    ensures HasCode(REJECTED_LINE, '4', '8', '1') && HasCode(ACCEPTED_LINE, '2', '8', '1')
  {}

  lemma AuthCodes(reply: Reply)
    ensures reply.Usage501? || reply.UnknownAuthinfo501? ==> HasCode(ReplyText(reply), '5', '0', '1')
    ensures reply.NeedPassword381? ==> HasCode(ReplyText(reply), '3', '8', '1')
    ensures reply.OutOfSequence482? ==> HasCode(ReplyText(reply), '4', '8', '2')
    ensures reply.Rejected481? ==> HasCode(ReplyText(reply), '4', '8', '1')
    ensures reply.Accepted281? ==> HasCode(ReplyText(reply), '2', '8', '1')
  {
    AuthLineCodes();
  }

  lemma LoopCodes(reply: Reply)
    ensures reply.AuthRequired480? || reply.ReauthPending480? || reply.InjectedReauth480? ==>
              HasCode(ReplyText(reply), '4', '8', '0')
    ensures reply.SendArticle340? ==> HasCode(ReplyText(reply), '3', '4', '0')
    ensures reply.Goodbye205? ==> HasCode(ReplyText(reply), '2', '0', '5')
    ensures reply.Unknown500? ==> HasCode(ReplyText(reply), '5', '0', '0')
  {
    assert HasCode(REQUIRED_LINE, '4', '8', '0') && HasCode(SEND_LINE, '3', '4', '0');
    assert HasCode(GOODBYE_LINE, '2', '0', '5') && HasCode(UNKNOWN_LINE, '5', '0', '0');
  }

  lemma PostLineCodes(reply: Posting.PostReply)
    ensures reply.Received? ==> HasCode(Posting.ReplyLine(reply), '2', '4', '0')
    ensures !reply.Received? ==> HasCode(Posting.ReplyLine(reply), '4', '4', '1')
  {}

  /** A post read in full is answered 240 exactly when it was committed, and 441 otherwise; so is one that was not
      read in full; and an over-long command line is answered 501. */
  lemma EventCodes(e: Event)
    ensures e.Posted? && e.result.Committed? && e.result.result.Stored? ==> HasCode(EventText(e), '2', '4', '0')
    ensures e.Posted? && !(e.result.Committed? && e.result.result.Stored?) ==> HasCode(EventText(e), '4', '4', '1')
    ensures e.PostBroken? || e.PostTooLong? || e.PostCutOff? ==> HasCode(EventText(e), '4', '4', '1')
    ensures e.LineTooLong? ==> HasCode(EventText(e), '5', '0', '1')
  {
    PostLineCodes(Posting.PostingFailed);
    if e.Posted? {
      PostLineCodes(PostReplyOf(e.result));
    }
    assert HasCode(TOO_LONG_LINE, '5', '0', '1');
  }

  /** The greeting is 502 exactly when the connection's number is above a positive limit, and then 400 or 20x by the
      rolls; only a connection greeted with 200 or 201 is served. */
  lemma GreetingCodes(o: Opening)
    ensures HasCode(Greeting(o), '5', '0', '2') <==> o.limit > 0 && o.active > o.limit
    ensures HasCode(Greeting(o), '4', '0', '0') <==> !(o.limit > 0 && o.active > o.limit) && o.unavailable
    ensures IsWelcome(o) ==> HasCode(Greeting(o), '2', '0', if o.noPosting then '1' else '0')
    ensures IsWelcome(o) <==> (HasCode(Greeting(o), '2', '0', '0') || HasCode(Greeting(o), '2', '0', '1')) && !o.drops
  {
    assert HasCode(TOO_MANY_LINE, '5', '0', '2') && HasCode(UNAVAILABLE_LINE, '4', '0', '0');
    assert HasCode(NO_POSTING_LINE, '2', '0', '1') && HasCode(READY_LINE, '2', '0', '0');
  }

  /** What a session logs of a block it read in full is what the block amounts to as a post. */
  lemma ResultIsThePost(input: Bytes, c: Choice)
    requires Posting.StoppedBy(input, c.fault).None? && ReadBlock(input).Block?
    ensures var post := Posting.PostOf(input, c.fault);
            var e := PostedEvent(ReadBlock(input).lines, c);
            && (e.result.NotWritten? <==> post.LocalFailure?)
            && (e.result.NoMessageId? <==> post.NoMessageId?)
            && (e.result.Committed? <==> post.Article?)
            && (post.Article? ==> e.result == Committed(post.id, c.commit) && e.contents == post.contents)
  {}
}
