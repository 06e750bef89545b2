/** The mails the core asks the mailer to send, and the mail channel as an
    oracle that decides which of them fail. */
module Notifications {
  import opened Wrappers
  import opened SubscriptionModel
  import opened Exceptions

  /** One message per mailer entry point; `PleaseApprove` goes to the list
      owner and names the subscriber in `username`. */
  datatype Mail =
    | PleaseConfirm(to: Email, token: Token)
    | PleaseWait(to: Email)
    | PleaseApprove(username: Email, token: Token)
    | Cv(to: Email, token: Token, isFirst: bool)

  /** The outcome the channel gives each message: `None` when it is sent. */
  type Channel = Mail -> Option<SendFailure>

  /** The messages sent, in order, and the failure that stopped the rest. */
  datatype Delivery = Delivery(delivered: seq<Mail>, failure: Option<SendFailure>)

  /** Sends `mails` one after the other; the first failure is thrown, so
      nothing after it is sent. */
  function Send(mails: seq<Mail>, channel: Channel): Delivery
  {
    if |mails| == 0 then Delivery([], None)
    else
      match channel(mails[0])
      case Some(f) => Delivery([], Some(f))
      case None =>
        var rest := Send(mails[1..], channel);
        Delivery([mails[0]] + rest.delivered, rest.failure)
  }

  /** What a send delivers: a prefix of the mails, each of which the channel
      accepted; all of them exactly when the channel accepts every one, and
      otherwise up to the first mail the channel refuses, whose failure is
      the one reported. */
  lemma {:induction false} SendDelivers(mails: seq<Mail>, channel: Channel)
    ensures var r := Send(mails, channel);
      && |r.delivered| <= |mails| && r.delivered == mails[..|r.delivered|]
      && (forall i :: 0 <= i < |r.delivered| ==> channel(r.delivered[i]).None?)
      && (r.failure.None? <==> r.delivered == mails)
      && (r.failure.None? <==> forall i :: 0 <= i < |mails| ==> channel(mails[i]).None?)
      && (r.failure.Some? ==> |r.delivered| < |mails| && channel(mails[|r.delivered|]) == r.failure)
  {
    if |mails| > 0 && channel(mails[0]).None? {
      SendDelivers(mails[1..], channel);
      var rest := Send(mails[1..], channel);
      assert [mails[0]] + mails[1..][..|rest.delivered|] == mails[..1 + |rest.delivered|];
      if rest.failure.None? {
        assert [mails[0]] + mails[1..] == mails;
      }
      forall i | 0 <= i < |mails| && i > 0
        ensures mails[i] == mails[1..][i - 1]
      {
      }
    }
  }

  /** Sending `a` and then `b` is sending `a + b`: the second run starts only
      when the first one delivered everything. */
  lemma {:induction false} SendAppend(a: seq<Mail>, b: seq<Mail>, channel: Channel)
    ensures Send(a + b, channel)
         == if Send(a, channel).failure.Some? then Send(a, channel)
            else Delivery(Send(a, channel).delivered + Send(b, channel).delivered, Send(b, channel).failure)
  {
    if |a| == 0 {
      assert a + b == b;
    } else {
      assert (a + b)[0] == a[0];
      assert (a + b)[1..] == a[1..] + b;
      SendAppend(a[1..], b, channel);
      if channel(a[0]).None? {
        var x := Send(a[1..], channel).delivered;
        assert [a[0]] + (x + Send(b, channel).delivered) == ([a[0]] + x) + Send(b, channel).delivered;
      }
    }
  }

  /** `SendAppend` for two adjacent slices of one sequence. */
  lemma SendSlices(mails: seq<Mail>, lo: nat, hi: nat, channel: Channel)
    requires lo <= hi <= |mails|
    ensures Send(mails[..hi], channel)
         == if Send(mails[..lo], channel).failure.Some? then Send(mails[..lo], channel)
            else Delivery(Send(mails[..lo], channel).delivered + Send(mails[lo..hi], channel).delivered,
                          Send(mails[lo..hi], channel).failure)
  {
    assert mails[..lo] + mails[lo..hi] == mails[..hi];
    SendAppend(mails[..lo], mails[lo..hi], channel);
  }

  /** Number of broadcast mails addressed to `e`. */
  function CvCount(mails: seq<Mail>, e: Email): nat {
    if |mails| == 0 then 0
    else (if mails[0].Cv? && mails[0].to == e then 1 else 0) + CvCount(mails[1..], e)
  }

  lemma {:induction false} CvCountAppend(a: seq<Mail>, b: seq<Mail>, e: Email)
    ensures CvCount(a + b, e) == CvCount(a, e) + CvCount(b, e)
  {
    if |a| == 0 {
      assert a + b == b;
    } else {
      assert (a + b)[1..] == a[1..] + b;
      CvCountAppend(a[1..], b, e);
    }
  }
}
