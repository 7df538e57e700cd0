/** The mail collaborator: configuration check, BCC list construction, the
    request it would post, and the classification of the HTTP status. The
    transport, the message body and the attachment encoding are parameters or
    left out. */
module Mail {
  import opened Wrappers

  /** A recipient or the mail configuration: a dict of strings. */
  type Fields = map<string, string>

  const RequiredKeys: seq<string> := ["api_url", "api_key", "from_email", "from_name", "subject"]
  const AuthScheme := "Zoho-enczapikey "

  /** One BCC entry, `{"email_address": {"address": ..., "name": ...}}`. */
  datatype Address = Address(address: string, name: Option<string>)

  /** The parts of the posted request the module decides. */
  datatype Request = Request(
    url: string,
    bounceAddress: string,
    fromAddress: string,
    fromName: string,
    subject: string,
    bcc: seq<Address>,
    authorization: string)

  /** `sent` is the boolean returned; `request` is what was posted, if anything. */
  datatype Outcome = Outcome(sent: bool, request: Option<Request>)

  predicate HasRequired(config: Fields) {
    forall k :: k in RequiredKeys ==> k in config
  }

  predicate HasEmail(recipient: Fields) {
    "email" in recipient
  }

  /** The entry for one recipient; the name only when present and non-empty. */
  function Entry(recipient: Fields): (a: Address)
    requires HasEmail(recipient)
    ensures a.address == recipient["email"]
    ensures a.name.Some? <==> "name" in recipient && recipient["name"] != ""
    ensures a.name.Some? ==> a.name.value == recipient["name"]
  {
    if "name" in recipient && recipient["name"] != "" then Address(recipient["email"], Some(recipient["name"]))
    else Address(recipient["email"], None)
  }

  /** Reference definition of the BCC list: the entries of the recipients that
      have an email address, in their original order. */
  function Bcc(recipients: seq<Fields>): (bcc: seq<Address>)
    ensures |bcc| <= |recipients|
  {
    if recipients == [] then []
    else if HasEmail(recipients[0]) then [Entry(recipients[0])] + Bcc(recipients[1..])
    else Bcc(recipients[1..])
  }

  /** The list keeps exactly the recipients that have an email address: every
      one of them has its entry in the list, every entry comes from one of
      them, and the list is empty or complete exactly when none or all do. */
  lemma {:induction false} BccKeepsExactlyEmailed(recipients: seq<Fields>)
    ensures var bcc := Bcc(recipients);
      && (|bcc| == |recipients| <==> forall k :: 0 <= k < |recipients| ==> HasEmail(recipients[k]))
      && (bcc == [] <==> forall k :: 0 <= k < |recipients| ==> !HasEmail(recipients[k]))
      && (forall k :: 0 <= k < |recipients| && HasEmail(recipients[k]) ==> Entry(recipients[k]) in bcc)
      && (forall a :: a in bcc ==> exists k :: 0 <= k < |recipients| && HasEmail(recipients[k]) && a == Entry(recipients[k]))
  {
    if recipients != [] {
      var rest := recipients[1..];
      BccKeepsExactlyEmailed(rest);
      assert forall k :: 1 <= k < |recipients| ==> recipients[k] == rest[k - 1];
      var bcc := Bcc(recipients);
      forall a | a in bcc
        ensures exists k :: 0 <= k < |recipients| && HasEmail(recipients[k]) && a == Entry(recipients[k])
      {
        if a in Bcc(rest) {
          var k :| 0 <= k < |rest| && HasEmail(rest[k]) && a == Entry(rest[k]);
          assert recipients[k + 1] == rest[k];
        }
      }
    }
  }

  /** The list is built recipient by recipient: splitting the recipients splits the list. */
  lemma {:induction false} BccAppend(a: seq<Fields>, b: seq<Fields>)
    ensures Bcc(a + b) == Bcc(a) + Bcc(b)
  {
    if a == [] {
      assert a + b == b;
    } else {
      assert (a + b)[0] == a[0];
      assert (a + b)[1..] == a[1..] + b;
      BccAppend(a[1..], b);
    }
  }

  /** One more recipient adds at most its own entry at the end. */
  lemma BccSnoc(recipients: seq<Fields>, recipient: Fields)
    ensures Bcc(recipients + [recipient]) == Bcc(recipients) + (if HasEmail(recipient) then [Entry(recipient)] else [])
  {
    BccAppend(recipients, [recipient]);
  }

  /** The loop of `send_email_with_attachment` that fills `bcc_list`. */
  method BuildBcc(recipients: seq<Fields>) returns (bcc: seq<Address>)
    ensures bcc == Bcc(recipients)
  {
    bcc := [];
    var i := 0;
    while i < |recipients|
      invariant 0 <= i <= |recipients|
      invariant bcc == Bcc(recipients[..i])
    {
      var recipient := recipients[i];
      assert recipients[..i + 1] == recipients[..i] + [recipient];
      BccSnoc(recipients[..i], recipient);
      if HasEmail(recipient) {
        bcc := bcc + [Entry(recipient)];
      }
      i := i + 1;
    }
    assert recipients[..i] == recipients;
  }

  /** `config.get('bounce_email', config['from_email'])`. */
  function BounceAddress(config: Fields): string
    requires "from_email" in config
  {
    if "bounce_email" in config then config["bounce_email"] else config["from_email"]
  }

  /** `send_email_with_attachment`; `status` is the HTTP status of the post, None
      when the transport raises. It never raises itself. */
  function SendEmail(recipients: seq<Fields>, config: Fields, status: Option<int>): (r: Outcome)
    ensures r.request.Some? <==>
      HasRequired(config) && exists k :: 0 <= k < |recipients| && HasEmail(recipients[k])
    ensures r.sent <==> r.request.Some? && (status == Some(200) || status == Some(202))
    ensures r.request.Some? ==>
      && r.request.value.url == config["api_url"]
      && r.request.value.bcc == Bcc(recipients)
      && r.request.value.authorization == AuthScheme + config["api_key"]
      && r.request.value.bounceAddress == (if "bounce_email" in config then config["bounce_email"] else config["from_email"])
      && r.request.value.fromAddress == config["from_email"]
  {
    if !HasRequired(config) then Outcome(false, None)
    else
      var bcc := Bcc(recipients);
      BccKeepsExactlyEmailed(recipients);
      if bcc == [] then Outcome(false, None)
      else
        var request := Request(
          config["api_url"], BounceAddress(config), config["from_email"], config["from_name"],
          config["subject"], bcc, AuthScheme + config["api_key"]);
        Outcome(status == Some(200) || status == Some(202), Some(request))
  }
}
