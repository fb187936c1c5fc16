/** The documented cases of the contact-point helpers, stated as lemmas about the model. */
module ContactPointsCases {
  import opened Wrappers
  import opened Strings
  import opened ContactPoints

  /** `test@test.com` is its own summary. */
  lemma OneAddress(a: string)
    requires a == "test@test.com"
    ensures SummarizeEmailAddresses(a) == a
  {
    SingleAddressUnchanged(a);
  }

  /** `foo@foo.com,   bar@bar.com` becomes `foo@foo.com, bar@bar.com`. */
  lemma CommaAndSpaces(a: string, b: string)
    requires a == "foo@foo.com" && b == "bar@bar.com"
    ensures SummarizeEmailAddresses(a + ",   " + b) == a + ", " + b
  {
    assert a + ",   " + b == [] + a + [','] + "   " + b + [];
    TwoAddresses([], a, ',', "   ", b, []);
  }

  /** ` foo@foo.com;  bar@bar.com` becomes `foo@foo.com, bar@bar.com`. */
  lemma LeadingSpaceAndSemicolon(a: string, b: string)
    requires a == "foo@foo.com" && b == "bar@bar.com"
    ensures SummarizeEmailAddresses(" " + a + ";  " + b) == a + ", " + b
  {
    assert " " + a + ";  " + b == " " + a + [';'] + "  " + b + [];
    TwoAddresses(" ", a, ';', "  ", b, []);
  }

  /** `foo@foo.com\n bar@bar.com  ` becomes `foo@foo.com, bar@bar.com`. */
  lemma NewlineAndTrailingSpaces(a: string, b: string)
    requires a == "foo@foo.com" && b == "bar@bar.com"
    ensures SummarizeEmailAddresses(a + "\n " + b + "  ") == a + ", " + b
  {
    assert a + "\n " + b + "  " == [] + a + ['\n'] + " " + b + "  ";
    TwoAddresses([], a, '\n', " ", b, "  ");
  }

  /** Four addresses of an e-mail receiver: the first three and `+1 more`. */
  lemma FourEmailAddresses(a: string, b: string, c: string, d: string, receiver: Receiver)
    requires a == "test1@test.com" && b == "test2@test.com" && c == "test3@test.com" && d == "test4@test.com"
    requires receiver == Receiver("email", EmailType, map["addresses" := a + "," + b + "," + c + "," + d],
                                  Some(ReceiverMeta("Email", Some("The email receiver"))), None)
    ensures GetReceiverDescription(receiver) == Some(a + ", " + b + ", " + c + ", " + "+1 more")
  {
    assert [a, b, c, d][1..] == [b, c, d] && [b, c, d][1..] == [c, d] && [c, d][1..] == [d];
    assert Join([c, d], ",") == c + "," + d;
    assert Join([b, c, d], ",") == b + "," + (c + "," + d);
    assert Join([a, b, c, d], ",") == a + "," + b + "," + c + "," + d;
    TestAddressesArePlain(a, b, c, d);
    EmailReceiverSummarizes(receiver, a, b, c, d);
  }

  /** The Slack receivers with recipients `#channel` and `channel` both show `#channel`. */
  lemma SlackWithAndWithoutHash(channel: string, withHash: Receiver, withoutHash: Receiver)
    requires channel == "channel"
    requires withHash == Receiver("slack", SlackType, map["recipient" := "#" + channel],
                                  Some(ReceiverMeta("Slack", Some("The Slack receiver"))), None)
    requires withoutHash == Receiver("slack", SlackType, map["recipient" := channel],
                                     Some(ReceiverMeta("Slack", Some("The Slack receiver"))), None)
    ensures GetReceiverDescription(withHash) == GetReceiverDescription(withoutHash) == Some("#" + channel)
  {
    SlackReceiverChannel(withHash, channel);
    SlackReceiverChannel(withoutHash, channel);
  }

  /** An OnCall receiver shows `The OnCall receiver`, the description of its plugin metadata. */
  lemma OnCallDescription(receiver: Receiver)
    requires receiver == Receiver("my oncall", OnCallType, map[],
                                  Some(ReceiverMeta("", None)), Some(PluginMeta(Some("The OnCall receiver"), "", "")))
    ensures GetReceiverDescription(receiver) == Some("The OnCall receiver")
  {
    OnCallReceiverUsesPlugin(receiver, "The OnCall receiver");
  }

  /** A receiver of type `some` shows its metadata's description, or nothing without one. */
  lemma AnyTypeDescription(described: Receiver, undescribed: Receiver)
    requires described == Receiver("some receiver", "some", map[],
                                   Some(ReceiverMeta("Some Receiver", Some("Some description of the receiver"))), None)
    requires undescribed == Receiver("some receiver", "some", map[], Some(ReceiverMeta("Some Receiver", None)), None)
    ensures GetReceiverDescription(described) == Some("Some description of the receiver")
    ensures GetReceiverDescription(undescribed) == None
  {
    OtherReceiverUsesMeta(described);
    OtherReceiverUsesMeta(undescribed);
  }
}
