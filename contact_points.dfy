/**
 * Contact-point helpers of the alerting UI: the one-line description shown
 * for a receiver (a summary of e-mail addresses, a Slack channel, or the
 * description carried by the receiver's metadata) and the check whether a
 * notification policy was generated by simplified routing.
 */
module ContactPoints {
  import opened Wrappers
  import opened Strings

  // ---------------------------------------------------------------------
  // String.prototype.trim
  // ---------------------------------------------------------------------

  /** The white-space and line-terminator characters that `trim` removes. */
  predicate IsSpace(c: char) {
    c == ' ' || c == '\t' || c == '\n' || c == '\r' || c == '\U{000B}' || c == '\U{000C}'
    || c == '\U{00A0}' || c == '\U{FEFF}' || c == '\U{1680}' || ('\U{2000}' <= c <= '\U{200A}')
    || c == '\U{2028}' || c == '\U{2029}' || c == '\U{202F}' || c == '\U{205F}' || c == '\U{3000}'
  }

  /** Every character of `s` is white space. */
  predicate AllSpaces(s: string) {
    forall k :: 0 <= k < |s| ==> IsSpace(s[k])
  }

  /** `s` has no white space at either end. */
  predicate IsTrimmed(s: string) {
    s == [] || (!IsSpace(s[0]) && !IsSpace(s[|s| - 1]))
  }

  /** `s` without its leading white space. */
  function TrimStart(s: string): (r: string)
    ensures |r| <= |s|
    ensures r == [] || !IsSpace(r[0])
  {
    if |s| > 0 && IsSpace(s[0]) then TrimStart(s[1..]) else s
  }

  /** `s` without its trailing white space. */
  function TrimEnd(s: string): (r: string)
    ensures |r| <= |s| && (r != [] ==> r[0] == s[0])
    ensures r == [] || !IsSpace(r[|r| - 1])
  {
    if |s| > 0 && IsSpace(s[|s| - 1]) then TrimEnd(s[..|s| - 1]) else s
  }

  /** `s.trim()`: the input without white space at either end. */
  function Trim(s: string): (r: string)
    ensures IsTrimmed(r)
  {
    TrimEnd(TrimStart(s))
  }

  /** Only white space is dropped in front, and what remains is the rest of `s`. */
  lemma {:induction false} TrimStartDropsSpaces(s: string)
    ensures TrimStart(s) == s[|s| - |TrimStart(s)|..]
    ensures AllSpaces(s[..|s| - |TrimStart(s)|])
  {
    if |s| > 0 && IsSpace(s[0]) {
      TrimStartDropsSpaces(s[1..]);
      var n := |s| - |TrimStart(s)|;
      assert s[..n] == [s[0]] + s[1..][..n - 1];
    }
  }

  /** Only white space is dropped at the end, and what remains is the start of `s`. */
  lemma {:induction false} TrimEndDropsSpaces(s: string)
    ensures TrimEnd(s) == s[..|TrimEnd(s)|]
    ensures AllSpaces(s[|TrimEnd(s)|..])
  {
    if |s| > 0 && IsSpace(s[|s| - 1]) {
      TrimEndDropsSpaces(s[..|s| - 1]);
      var n := |TrimEnd(s)|;
      assert s[n..] == s[..|s| - 1][n..] + [s[|s| - 1]];
    }
  }

  /** What `trim` keeps is a slice of the input with only white space outside it. */
  lemma TrimIsSlice(s: string) returns (i: nat)
    ensures i + |Trim(s)| <= |s| && Trim(s) == s[i..i + |Trim(s)|]
    ensures AllSpaces(s[..i]) && AllSpaces(s[i + |Trim(s)|..])
  {
    var t := TrimStart(s);
    var r := TrimEnd(t);
    TrimStartDropsSpaces(s);
    TrimEndDropsSpaces(t);
    i := |s| - |t|;
    assert t == s[i..] && r == t[..|r|];
    PrefixOfSuffix(s, i, |r|);
    assert s[i + |r|..] == t[|r|..];
  }

  /** Trimming a string that is already trimmed changes nothing. */
  lemma TrimmedIsFixed(s: string)
    requires IsTrimmed(s)
    ensures Trim(s) == s
  {
    assert TrimStart(s) == s;
  }

  /** Trimming removes exactly the white space around a trimmed core. */
  lemma {:induction false} TrimPadded(pre: string, s: string, post: string)
    requires AllSpaces(pre) && AllSpaces(post) && s != [] && IsTrimmed(s)
    ensures Trim(pre + s + post) == s
  {
    TrimStartPadded(pre, s + post);
    assert pre + s + post == pre + (s + post);
    TrimEndPadded(s, post);
  }

  lemma {:induction false} TrimStartPadded(pre: string, s: string)
    requires AllSpaces(pre) && s != [] && !IsSpace(s[0])
    ensures TrimStart(pre + s) == s
    decreases |pre|
  {
    if pre != [] {
      assert (pre + s)[1..] == pre[1..] + s;
      TrimStartPadded(pre[1..], s);
    }
  }

  lemma {:induction false} TrimEndPadded(s: string, post: string)
    requires AllSpaces(post) && s != [] && !IsSpace(s[|s| - 1])
    ensures TrimEnd(s + post) == s
    decreases |post|
  {
    if post == [] {
      assert s + post == s;
    } else {
      assert (s + post)[..|s + post| - 1] == s + post[..|post| - 1];
      TrimEndPadded(s, post[..|post| - 1]);
    }
  }

  /** Trimming twice is trimming once. */
  lemma TrimIdempotent(s: string)
    ensures Trim(Trim(s)) == Trim(s)
  {
    TrimmedIsFixed(Trim(s));
  }

  // ---------------------------------------------------------------------
  // Splitting an address list
  // ---------------------------------------------------------------------

  /** Starts a separator of an address list: `,`, `;` or a newline. */
  predicate IsSeparator(c: char) {
    c == ',' || c == ';' || c == '\n'
  }

  /** `s` holds no separator character. */
  predicate NoSeparator(s: string) {
    ',' !in s && ';' !in s && '\n' !in s
  }

  /** `s` without its leading newlines: the rest of a run of line breaks. */
  function SkipNewlines(s: string): (r: string)
    ensures |r| <= |s| && r == s[|s| - |r|..]
    ensures r == [] || r[0] != '\n'
  {
    if |s| > 0 && s[0] == '\n' then SkipNewlines(s[1..]) else s
  }

  /**
   * `s.split(/,|;|\n+/)`: a comma or a semicolon ends a piece, and so does a
   * whole run of newlines; the pieces hold no separator.
   */
  function SplitAddressList(s: string): (parts: seq<string>)
    ensures |parts| >= 1
    ensures forall k :: 0 <= k < |parts| ==> NoSeparator(parts[k])
    decreases |s|
  {
    if |s| == 0 then [""]
    else if s[0] == ',' || s[0] == ';' then [""] + SplitAddressList(s[1..])
    else if s[0] == '\n' then [""] + SplitAddressList(SkipNewlines(s[1..]))
    else
      var rest := SplitAddressList(s[1..]);
      assert NoSeparator([s[0]] + rest[0]);
      [[s[0]] + rest[0]] + rest[1..]
  }

  /** A string without separators is a single piece. */
  lemma {:induction false} SplitSinglePiece(s: string)
    requires NoSeparator(s)
    ensures SplitAddressList(s) == [s]
  {
    if |s| > 0 {
      assert NoSeparator(s[1..]) by {
        assert forall c :: c in s[1..] ==> c in s;
      }
      SplitSinglePiece(s[1..]);
      assert [s[0]] + s[1..] == s;
    }
  }

  /** A separator-free piece in front of `tail`, ended by a comma or a semicolon. */
  lemma {:induction false} SplitAfterPunctuation(head: string, c: char, tail: string)
    requires NoSeparator(head) && (c == ',' || c == ';')
    ensures SplitAddressList(head + [c] + tail) == [head] + SplitAddressList(tail)
  {
    var s := head + [c] + tail;
    if |head| == 0 {
      assert s == [c] + tail;
      assert s[1..] == tail;
    } else {
      assert s[0] == head[0] && head[0] in head;
      assert s[1..] == head[1..] + [c] + tail;
      assert NoSeparator(head[1..]) by {
        assert forall x :: x in head[1..] ==> x in head;
      }
      SplitAfterPunctuation(head[1..], c, tail);
      var rest := SplitAddressList(s[1..]);
      assert rest == [head[1..]] + SplitAddressList(tail);
      assert SplitAddressList(s) == [[s[0]] + rest[0]] + rest[1..];
      assert [head[0]] + head[1..] == head;
    }
  }

  /** A separator-free piece in front of `tail`, ended by a whole run of newlines. */
  lemma {:induction false} SplitAfterNewlines(head: string, breaks: string, tail: string)
    requires NoSeparator(head) && |breaks| > 0
    requires forall k :: 0 <= k < |breaks| ==> breaks[k] == '\n'
    requires tail == [] || tail[0] != '\n'
    ensures SplitAddressList(head + breaks + tail) == [head] + SplitAddressList(tail)
  {
    var s := head + breaks + tail;
    if |head| == 0 {
      assert s == breaks + tail;
      assert s[0] == '\n';
      assert s[1..] == breaks[1..] + tail;
      SkipBreaks(breaks[1..], tail);
      assert SplitAddressList(s) == [""] + SplitAddressList(SkipNewlines(s[1..]));
    } else {
      assert s[0] == head[0] && head[0] in head;
      assert s[1..] == head[1..] + breaks + tail;
      assert NoSeparator(head[1..]) by {
        assert forall x :: x in head[1..] ==> x in head;
      }
      SplitAfterNewlines(head[1..], breaks, tail);
      var rest := SplitAddressList(s[1..]);
      assert rest == [head[1..]] + SplitAddressList(tail);
      assert SplitAddressList(s) == [[s[0]] + rest[0]] + rest[1..];
      assert [head[0]] + head[1..] == head;
    }
  }

  lemma {:induction false} SkipBreaks(breaks: string, tail: string)
    requires forall k :: 0 <= k < |breaks| ==> breaks[k] == '\n'
    requires tail == [] || tail[0] != '\n'
    ensures SkipNewlines(breaks + tail) == tail
    decreases |breaks|
  {
    if |breaks| == 0 {
      assert breaks + tail == tail;
    } else {
      assert (breaks + tail)[1..] == breaks[1..] + tail;
      SkipBreaks(breaks[1..], tail);
    }
  }

  /** Joining separator-free pieces with a comma or a semicolon and splitting again gives them back. */
  lemma {:induction false} SplitJoinPunctuation(parts: seq<string>, c: char)
    requires |parts| >= 1 && (c == ',' || c == ';')
    requires forall k :: 0 <= k < |parts| ==> NoSeparator(parts[k])
    ensures SplitAddressList(Join(parts, [c])) == parts
  {
    if |parts| == 1 {
      SplitSinglePiece(parts[0]);
    } else {
      SplitJoinPunctuation(parts[1..], c);
      SplitAfterPunctuation(parts[0], c, Join(parts[1..], [c]));
      assert [parts[0]] + parts[1..] == parts;
    }
  }

  // ---------------------------------------------------------------------
  // summarizeEmailAddresses
  // ---------------------------------------------------------------------

  /** How many addresses a summary lists before it counts the rest. */
  const MaxAddressesShown: nat := 3

  /** The addresses of a list: the pieces of the trimmed list, each trimmed. */
  function EmailAddresses(addresses: string): (emails: seq<string>)
    ensures |emails| == |SplitAddressList(Trim(addresses))| >= 1
    ensures forall k :: 0 <= k < |emails| ==> IsTrimmed(emails[k])
    ensures forall k :: 0 <= k < |emails| ==> emails[k] == Trim(SplitAddressList(Trim(addresses))[k])
  {
    TrimEach(SplitAddressList(Trim(addresses)))
  }

  /** Every piece trimmed, in order. */
  function TrimEach(pieces: seq<string>): (r: seq<string>)
    ensures |r| == |pieces|
    ensures forall k :: 0 <= k < |r| ==> r[k] == Trim(pieces[k])
  {
    if |pieces| == 0 then [] else [Trim(pieces[0])] + TrimEach(pieces[1..])
  }

  /** The entry that stands for the addresses left out of a summary. */
  function MoreEntry(hidden: nat): string {
    "+" + NatToString(hidden) + " more"
  }

  /** The entries of a summary: the first three addresses and, when there are more, a `+N more` entry. */
  function SummaryEntries(emails: seq<string>): seq<string> {
    var shown := if |emails| <= MaxAddressesShown then emails else emails[..MaxAddressesShown];
    var rest := emails[|shown|..];
    shown + (if |rest| > 0 then [MoreEntry(|rest|)] else [])
  }

  /** `summarizeEmailAddresses`: the summary entries of the address list, joined by `, `. */
  function SummarizeEmailAddresses(addresses: string): (r: string)
    ensures var emails := EmailAddresses(addresses);
      (|emails| <= MaxAddressesShown ==> r == Join(emails, ", "))
      && (|emails| > MaxAddressesShown ==>
            r == Join(emails[..MaxAddressesShown], ", ") + ", " + MoreEntry(|emails| - MaxAddressesShown))
  {
    var emails := EmailAddresses(addresses);
    if |emails| <= MaxAddressesShown then
      FewAddressesListed(emails);
      Join(SummaryEntries(emails), ", ")
    else
      ManyAddressesCounted(emails);
      Join(SummaryEntries(emails), ", ")
  }

  /** Up to three addresses are all listed, in order, and nothing else is. */
  lemma FewAddressesListed(emails: seq<string>)
    requires |emails| <= MaxAddressesShown
    ensures Join(SummaryEntries(emails), ", ") == Join(emails, ", ")
  {
    assert emails[|emails|..] == [];
    assert emails + [] == emails;
  }

  /** With more than three addresses, the first three are listed and the others only counted. */
  lemma ManyAddressesCounted(emails: seq<string>)
    requires |emails| > MaxAddressesShown
    ensures Join(SummaryEntries(emails), ", ")
         == Join(emails[..MaxAddressesShown], ", ") + ", " + MoreEntry(|emails| - MaxAddressesShown)
  {
    var shown := emails[..MaxAddressesShown];
    var more := MoreEntry(|emails| - MaxAddressesShown);
    assert SummaryEntries(emails) == shown + [more];
    JoinAppend(shown, [more], ", ");
  }

  /** The addresses of a list whose pieces are known. */
  lemma AddressesOfPieces(addresses: string, pieces: seq<string>, emails: seq<string>)
    requires SplitAddressList(Trim(addresses)) == pieces
    requires |emails| == |pieces| && forall k :: 0 <= k < |pieces| ==> Trim(pieces[k]) == emails[k]
    ensures EmailAddresses(addresses) == emails
  {
    TrimEachIs(pieces, emails);
  }

  lemma TrimEachIs(pieces: seq<string>, emails: seq<string>)
    requires |emails| == |pieces| && forall k :: 0 <= k < |pieces| ==> Trim(pieces[k]) == emails[k]
    ensures TrimEach(pieces) == emails
  {
  }

  /** A single trimmed address without separators is its own summary. */
  lemma SingleAddressUnchanged(address: string)
    requires address != [] && IsTrimmed(address) && NoSeparator(address)
    ensures SummarizeEmailAddresses(address) == address
  {
    TrimmedIsFixed(address);
    SplitSinglePiece(address);
    AddressesOfPieces(address, [address], [address]);
    FewAddressesListed([address]);
  }

  /** A plain address: non-empty, trimmed and free of separators. */
  predicate IsPlainAddress(a: string) {
    a != [] && IsTrimmed(a) && NoSeparator(a)
  }

  /** Two addresses with white space around them and a comma, a semicolon or a newline between. */
  lemma TwoAddresses(pre: string, a: string, sep: char, mid: string, b: string, post: string)
    requires AllSpaces(pre) && AllSpaces(post) && AllSpaces(mid) && NoSeparator(mid)
    requires IsPlainAddress(a) && IsPlainAddress(b) && IsSeparator(sep)
    ensures SummarizeEmailAddresses(pre + a + [sep] + mid + b + post) == a + ", " + b
  {
    var addresses := pre + a + [sep] + mid + b + post;
    TwoAddressPieces(pre, a, sep, mid, b, post);
    TrimmedIsFixed(a);
    assert mid + b == mid + b + [];
    TrimPadded(mid, b, []);
    AddressesOfPieces(addresses, [a, mid + b], [a, b]);
    FewAddressesListed([a, b]);
  }

  lemma TwoAddressPieces(pre: string, a: string, sep: char, mid: string, b: string, post: string)
    requires AllSpaces(pre) && AllSpaces(post) && AllSpaces(mid) && NoSeparator(mid)
    requires IsPlainAddress(a) && IsPlainAddress(b) && IsSeparator(sep)
    ensures SplitAddressList(Trim(pre + a + [sep] + mid + b + post)) == [a, mid + b]
  {
    var core := a + [sep] + (mid + b);
    assert pre + a + [sep] + mid + b + post == pre + core + post;
    assert core[0] == a[0] && core[|core| - 1] == b[|b| - 1];
    TrimPadded(pre, core, post);
    assert NoSeparator(mid + b) by {
      assert forall x :: x in mid + b ==> x in mid || x in b;
    }
    if sep == '\n' {
      SplitAfterNewlines(a, [sep], mid + b);
    } else {
      SplitAfterPunctuation(a, sep, mid + b);
    }
    SplitSinglePiece(mid + b);
  }

  /** Four comma-separated plain addresses: three listed and `+1 more`. */
  lemma FourAddresses(a: string, b: string, c: string, d: string)
    requires IsPlainAddress(a) && IsPlainAddress(b) && IsPlainAddress(c) && IsPlainAddress(d)
    ensures SummarizeEmailAddresses(Join([a, b, c, d], ","))
         == a + ", " + b + ", " + c + ", " + "+1 more"
  {
    FourAddressesSplit(a, b, c, d);
    ManyAddressesCounted([a, b, c, d]);
    assert [a, b, c, d][..MaxAddressesShown] == [a, b, c];
    assert [a, b, c][1..] == [b, c] && [b, c][1..] == [c];
    assert Join([b, c], ", ") == b + ", " + c;
    assert Join([a, b, c], ", ") == a + ", " + (b + ", " + c);
    assert NatToString(1) == "1";
  }

  lemma FourAddressesSplit(a: string, b: string, c: string, d: string)
    requires IsPlainAddress(a) && IsPlainAddress(b) && IsPlainAddress(c) && IsPlainAddress(d)
    ensures EmailAddresses(Join([a, b, c, d], ",")) == [a, b, c, d]
  {
    var s := Join([a, b, c, d], ",");
    JoinedIsTrimmed(a, b, c, d);
    TrimmedIsFixed(s);
    SplitJoinPunctuation([a, b, c, d], ',');
    TrimmedIsFixed(a);
    TrimmedIsFixed(b);
    TrimmedIsFixed(c);
    TrimmedIsFixed(d);
    AddressesOfPieces(s, [a, b, c, d], [a, b, c, d]);
  }

  lemma JoinedIsTrimmed(a: string, b: string, c: string, d: string)
    requires IsPlainAddress(a) && IsPlainAddress(d)
    ensures IsTrimmed(Join([a, b, c, d], ","))
  {
    var joined := a + "," + (b + "," + (c + "," + d));
    assert [a, b, c, d][1..] == [b, c, d] && [b, c, d][1..] == [c, d] && [c, d][1..] == [d];
    assert Join([c, d], ",") == c + "," + d;
    assert Join([b, c, d], ",") == b + "," + (c + "," + d);
    assert Join([a, b, c, d], ",") == joined;
    assert joined[0] == a[0] && joined[|joined| - 1] == d[|d| - 1];
  }

  // ---------------------------------------------------------------------
  // getReceiverDescription
  // ---------------------------------------------------------------------

  /** The receiver metadata: a display name and an optional description. */
  datatype ReceiverMeta = ReceiverMeta(name: string, description: Option<string>)

  /** The metadata of a receiver provided by an app plugin. */
  datatype PluginMeta = PluginMeta(description: Option<string>, icon: string, title: string)

  /** A receiver with its string settings and optional metadata. */
  datatype Receiver = Receiver(
    name: string,
    receiverType: string,
    settings: map<string, string>,
    meta: Option<ReceiverMeta>,
    pluginMeta: Option<PluginMeta>)

  /** The receiver types that have a description of their own. */
  const EmailType := "email"
  const SlackType := "slack"
  const OnCallType := "oncall"

  /** The Slack channel of a recipient: `#` added unless already there; none for an empty or missing recipient. */
  function SlackChannel(recipient: Option<string>): (r: Option<string>)
    ensures r.Some? <==> recipient.Some? && recipient.value != []
    ensures r.Some? ==> |r.value| >= 1 && r.value[0] == '#'
  {
    if recipient.None? || recipient.value == [] then None
    else if recipient.value[0] == '#' then recipient
    else Some("#" + recipient.value)
  }

  /** The channel name without the one `#` the description puts in front of it. */
  function ChannelName(recipient: string): string {
    if |recipient| > 0 && recipient[0] == '#' then recipient[1..] else recipient
  }

  /** A recipient with or without its `#` names the same channel, and the `#` is never doubled. */
  lemma SlackHashAddedOnce(channel: string)
    requires channel != [] && channel[0] != '#'
    ensures SlackChannel(Some(channel)) == SlackChannel(Some("#" + channel)) == Some("#" + channel)
  {
  }

  /** The description is `#` and the recipient's channel name, and describing it again changes nothing. */
  lemma SlackChannelNormalForm(recipient: string)
    requires recipient != []
    ensures SlackChannel(Some(recipient)) == Some("#" + ChannelName(recipient))
    ensures SlackChannel(SlackChannel(Some(recipient))) == SlackChannel(Some(recipient))
  {
    if recipient[0] == '#' {
      assert recipient == "#" + recipient[1..];
    }
  }

  /** The description of a metadata record, when there is one. */
  function MetaDescription(meta: Option<ReceiverMeta>): Option<string> {
    if meta.Some? then meta.value.description else None
  }

  /** The description of a plugin metadata record, when there is one. */
  function PluginDescription(meta: Option<PluginMeta>): Option<string> {
    if meta.Some? then meta.value.description else None
  }

  /** The one-line description of a receiver, by its type. */
  function GetReceiverDescription(receiver: Receiver): (r: Option<string>)
    ensures receiver.receiverType == EmailType && "addresses" in receiver.settings
            ==> r == Some(SummarizeEmailAddresses(receiver.settings["addresses"]))
    ensures receiver.receiverType == SlackType ==>
      (r.Some? <==> "recipient" in receiver.settings && receiver.settings["recipient"] != [])
      && (r.Some? ==> r.value == "#" + ChannelName(receiver.settings["recipient"]))
    ensures receiver.receiverType == OnCallType ==> r == PluginDescription(receiver.pluginMeta)
    ensures receiver.receiverType !in {EmailType, SlackType, OnCallType} ==> r == MetaDescription(receiver.meta)
  {
    if receiver.receiverType == EmailType then
      if "addresses" in receiver.settings then Some(SummarizeEmailAddresses(receiver.settings["addresses"])) else None
    else if receiver.receiverType == SlackType then
      SlackChannel(if "recipient" in receiver.settings then Some(receiver.settings["recipient"]) else None)
    else if receiver.receiverType == OnCallType then
      PluginDescription(receiver.pluginMeta)
    else
      MetaDescription(receiver.meta)
  }

  /** Which fields decide the description: the settings for e-mail and Slack, the plugin metadata for OnCall, the metadata otherwise. */
  lemma DescriptionSources(receiver: Receiver, other: Receiver)
    requires receiver.receiverType == other.receiverType
    ensures receiver.receiverType in {EmailType, SlackType} && receiver.settings == other.settings
            ==> GetReceiverDescription(receiver) == GetReceiverDescription(other)
    ensures receiver.receiverType == OnCallType && receiver.pluginMeta == other.pluginMeta
            ==> GetReceiverDescription(receiver) == GetReceiverDescription(other)
    ensures receiver.receiverType !in {EmailType, SlackType, OnCallType} && receiver.meta == other.meta
            ==> GetReceiverDescription(receiver) == GetReceiverDescription(other)
  {
  }

  /** An e-mail receiver with four comma-separated addresses lists three and counts the fourth. */
  lemma EmailReceiverSummarizes(receiver: Receiver, a: string, b: string, c: string, d: string)
    requires receiver.receiverType == EmailType
    requires receiver.settings == map["addresses" := Join([a, b, c, d], ",")]
    requires IsPlainAddress(a) && IsPlainAddress(b) && IsPlainAddress(c) && IsPlainAddress(d)
    ensures GetReceiverDescription(receiver) == Some(a + ", " + b + ", " + c + ", " + "+1 more")
  {
    FourAddresses(a, b, c, d);
  }

  /** The four test addresses are plain. */
  lemma TestAddressesArePlain(a: string, b: string, c: string, d: string)
    requires a == "test1@test.com" && b == "test2@test.com" && c == "test3@test.com" && d == "test4@test.com"
    ensures IsPlainAddress(a) && IsPlainAddress(b) && IsPlainAddress(c) && IsPlainAddress(d)
  {
  }

  /** A Slack receiver shows `#channel` whether its recipient is `#channel` or `channel`. */
  lemma SlackReceiverChannel(receiver: Receiver, channel: string)
    requires receiver.receiverType == SlackType && channel != [] && channel[0] != '#'
    requires receiver.settings == map["recipient" := channel] || receiver.settings == map["recipient" := "#" + channel]
    ensures GetReceiverDescription(receiver) == Some("#" + channel)
  {
    SlackHashAddedOnce(channel);
  }

  /** An OnCall receiver shows the description of its plugin metadata, whatever its own metadata says. */
  lemma OnCallReceiverUsesPlugin(receiver: Receiver, description: string)
    requires receiver.receiverType == OnCallType
    requires receiver.pluginMeta.Some? && receiver.pluginMeta.value.description == Some(description)
    ensures GetReceiverDescription(receiver) == Some(description)
  {
  }

  /** Any other receiver shows its metadata's description, and nothing when there is none. */
  lemma OtherReceiverUsesMeta(receiver: Receiver)
    requires receiver.receiverType !in {EmailType, SlackType, OnCallType}
    ensures GetReceiverDescription(receiver).None? <==> receiver.meta.None? || receiver.meta.value.description.None?
    ensures receiver.meta.Some? ==> GetReceiverDescription(receiver) == receiver.meta.value.description
  {
  }

  // ---------------------------------------------------------------------
  // isAutoGeneratedPolicy
  // ---------------------------------------------------------------------

  /** An object matcher of a notification policy: label, operator and value. */
  datatype ObjectMatcher = ObjectMatcher(labelName: string, op: string, value: string)

  /** A notification policy, reduced to its optional object matchers. */
  datatype Route = Route(objectMatchers: Option<seq<ObjectMatcher>>)

  /** The label simplified routing puts on the policies it generates. */
  const AutogeneratedRouteLabel := "__grafana_autogenerated__"

  /** The matcher that marks a generated policy. */
  const AutogeneratedRouteMatcher := ObjectMatcher(AutogeneratedRouteLabel, "=", "true")

  /** `matchers.some(m => m equals target)`, scanning from the front. */
  function SomeMatcherIs(matchers: seq<ObjectMatcher>, target: ObjectMatcher): (r: bool)
    ensures r <==> target in matchers
  {
    if |matchers| == 0 then false
    else matchers[0] == target || SomeMatcherIs(matchers[1..], target)
  }

  /**
   * `isAutoGeneratedPolicy`: only with simplified routing switched on, and
   * only for a policy with object matchers, one of which is the generated-policy matcher.
   */
  function IsAutoGeneratedPolicy(route: Route, simplifiedRouting: bool): (r: bool)
    ensures r <==> simplifiedRouting && route.objectMatchers.Some? && AutogeneratedRouteMatcher in route.objectMatchers.value
  {
    simplifiedRouting && route.objectMatchers.Some? && SomeMatcherIs(route.objectMatchers.value, AutogeneratedRouteMatcher)
  }

  /** An empty policy is never generated, with or without simplified routing. */
  lemma EmptyRouteNotAutoGenerated(simplifiedRouting: bool)
    ensures !IsAutoGeneratedPolicy(Route(None), simplifiedRouting)
  {
  }
}
