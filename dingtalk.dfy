/** The DingTalk robot notifier: the signed webhook URL, the message-type dispatch that turns
    free-form notification arguments into one of four payloads, and the JSON envelope that is
    posted. */
module Dingtalk {
  import opened Wrappers
  import opened Bytes
  import opened Text
  import Utf8
  import Base64
  import Quote

  /** The separator between a text message's title and its body: eleven EM DASHes (U+2014). */
  const Divider: string := "———————————"
  /** The title used when none is given ("notification"). */
  const DefaultTitle: string := "通知"
  /** The fixed button label of an action card ("read the full text"). */
  const ReadFullText: string := "阅读全文"

  /** An HMAC-SHA256 digest: 32 bytes. */
  type Digest = d: seq<byte> | |d| == 32 witness seq(32, _ => 0)

  /** HMAC-SHA256 as a function of (key, message); its internals are not modelled. */
  type Hmac = (seq<byte>, seq<byte>) -> Digest

  // ---------------------------------------------------------------------------------------
  // Python truthiness of the optional arguments

  /** `if title:` -- an absent title and an empty one are both false. */
  predicate Truthy(s: Option<string>) {
    s.Some? && s.value != ""
  }

  /** `title or "通知"`. */
  function TitleOrDefault(title: Option<string>): (r: string)
    ensures Truthy(title) ==> r == title.value
    ensures !Truthy(title) ==> r == DefaultTitle
    ensures r != ""
  {
    if Truthy(title) then title.value else DefaultTitle
  }

  // ---------------------------------------------------------------------------------------
  // Message types and payloads

  datatype MsgType = TextType | MarkdownType | LinkType | ActionCardType

  /** The wire name of a message type, which is also the envelope key of its payload. */
  function TypeName(t: MsgType): string {
    match t
    case TextType => "text"
    case MarkdownType => "markdown"
    case LinkType => "link"
    case ActionCardType => "actioncard"
  }

  /** The type a lower-cased type name selects, or None for a name outside the four. */
  function ParseType(name: string): (r: Option<MsgType>)
    ensures r.Some? <==> name == "text" || name == "markdown" || name == "link" || name == "actioncard"
    ensures r.Some? ==> TypeName(r.value) == name
  {
    if name == "text" then Some(TextType)
    else if name == "markdown" then Some(MarkdownType)
    else if name == "link" then Some(LinkType)
    else if name == "actioncard" then Some(ActionCardType)
    else None
  }

  /** Names and types correspond one to one. */
  lemma ParseTypeName(t: MsgType)
    ensures ParseType(TypeName(t)) == Some(t)
    ensures TypeName(t) != "at" && TypeName(t) != "msgtype"
  {
  }

  /** The four payload shapes. The fixed fields of an action card are not stored; they are
      written out by `PayloadJson`. */
  datatype Payload =
    | TextMsg(content: string)
    | MarkdownMsg(title: string, text: string)
    | LinkMsg(title: string, text: string, picUrl: string, messageUrl: string)
    | ActionCardMsg(title: string, text: string, singleURL: string)

  function Kind(p: Payload): MsgType {
    match p
    case TextMsg(_) => TextType
    case MarkdownMsg(_, _) => MarkdownType
    case LinkMsg(_, _, _, _) => LinkType
    case ActionCardMsg(_, _, _) => ActionCardType
  }

  /** The heading a titled text message starts with. */
  function TitleHeading(title: Option<string>): string {
    if Truthy(title) then title.value + "\n" + Divider + "\n" else ""
  }

  /** The content of a text message. */
  function TextContent(title: Option<string>, message: string): (c: string)
    ensures |c| >= |message| && c[|c| - |message|..] == message
    ensures Truthy(title) ==> c == title.value + "\n" + Divider + "\n" + message
    ensures !Truthy(title) ==> c == message
  {
    TitleHeading(title) + message
  }

  /** The payload of type `t` for the given arguments. */
  function BuildPayload(t: MsgType, message: string, title: Option<string>, url: string, picurl: string): (p: Payload)
    ensures Kind(p) == t
    ensures p.TextMsg? ==> p.content == TextContent(title, message)
    ensures !p.TextMsg? ==> p.title == TitleOrDefault(title) && p.text == message
    ensures p.LinkMsg? ==> p.picUrl == picurl && p.messageUrl == url
    ensures p.ActionCardMsg? ==> p.singleURL == url
  {
    match t
    case TextType => TextMsg(TextContent(title, message))
    case MarkdownType => MarkdownMsg(TitleOrDefault(title), message)
    case LinkType => LinkMsg(TitleOrDefault(title), message, picurl, url)
    case ActionCardType => ActionCardMsg(TitleOrDefault(title), message, url)
  }

  // ---------------------------------------------------------------------------------------
  // The free-form `data` argument

  type Data = map<string, string>

  /** `data or {}`: a missing and an empty `data` are both falsy, and both read as no entries. */
  function DataOrEmpty(data: Option<Data>): (d: Data)
    ensures data.Some? ==> d == data.value
    ensures d == map[] <==> data.None? || data.value == map[]
  {
    data.GetOr(map[])
  }

  /** `d.get(key, default)`. */
  function Field(d: Data, key: string, default: string): (v: string)
    ensures key in d ==> v == d[key]
    ensures key !in d ==> v == default
  {
    if key in d then d[key] else default
  }

  /** The message type asked for: the lower-cased `type` entry, `"text"` when there is none.
      A present but empty entry is not replaced by the default. */
  function RequestedType(data: Option<Data>): string {
    Lower(Field(DataOrEmpty(data), "type", "text"))
  }

  datatype BuildError = UnsupportedMessageType(msgtype: string)

  /** The payload for a notification, or the unsupported type that stops the send. */
  function BuildMessage(message: string, title: Option<string>, data: Option<Data>): (r: Result<Payload, BuildError>)
    ensures r.Success? <==> ParseType(RequestedType(data)).Some?
    ensures r.Failure? ==> r.error == UnsupportedMessageType(RequestedType(data))
    ensures r.Success? ==> TypeName(Kind(r.value)) == RequestedType(data)
    ensures r.Success? ==> r.value == BuildPayload(Kind(r.value), message, title,
      Field(DataOrEmpty(data), "url", ""), Field(DataOrEmpty(data), "picurl", ""))
  {
    var d := DataOrEmpty(data);
    var msgtype := RequestedType(data);
    match ParseType(msgtype)
    case None => Failure(UnsupportedMessageType(msgtype))
    case Some(t) => Success(BuildPayload(t, message, title, Field(d, "url", ""), Field(d, "picurl", "")))
  }

  /** The type is matched case-insensitively: only the lower case of the requested type
      matters, whether it is given or defaulted. */
  lemma BuildMessageCaseInsensitive(message: string, title: Option<string>, d: Option<Data>, e: Option<Data>)
    requires RequestedType(d) == RequestedType(e)
    requires Field(DataOrEmpty(d), "url", "") == Field(DataOrEmpty(e), "url", "")
    requires Field(DataOrEmpty(d), "picurl", "") == Field(DataOrEmpty(e), "picurl", "")
    ensures BuildMessage(message, title, d) == BuildMessage(message, title, e)
  {
  }

  /** `TEXT` selects the same text message as no type at all. */
  lemma UpperCaseDefaultExample(message: string, title: Option<string>)
    ensures BuildMessage(message, title, Some(map["type" := "TEXT"])) == BuildMessage(message, title, None)
  {
    LowerSpelled("TEXT", "text");
    LowerOfLower("text");
    BuildMessageCaseInsensitive(message, title, Some(map["type" := "TEXT"]), None);
  }

  /** An empty title behaves as no title, and an empty `data` as none. */
  lemma BuildMessageFalsyArguments(message: string, data: Option<Data>, title: Option<string>)
    ensures BuildMessage(message, Some(""), data) == BuildMessage(message, None, data)
    ensures BuildMessage(message, title, Some(map[])) == BuildMessage(message, title, None)
  {
  }

  /** The dispatch table: the lower-cased type picks the payload shape, and any other name is
      refused with that name. */
  lemma BuildMessageDispatch(message: string, title: Option<string>, data: Option<Data>)
    ensures var name := RequestedType(data); var d := DataOrEmpty(data);
      var url := Field(d, "url", ""); var picurl := Field(d, "picurl", "");
      var r := BuildMessage(message, title, data);
      (name == "text" ==> r == Success(TextMsg(TextContent(title, message))))
      && (name == "markdown" ==> r == Success(MarkdownMsg(TitleOrDefault(title), message)))
      && (name == "link" ==> r == Success(LinkMsg(TitleOrDefault(title), message, picurl, url)))
      && (name == "actioncard" ==> r == Success(ActionCardMsg(TitleOrDefault(title), message, url)))
      && (name != "text" && name != "markdown" && name != "link" && name != "actioncard" ==>
            r == Failure(UnsupportedMessageType(name)))
  {
  }

  lemma DefaultTypeIsText(message: string, title: Option<string>)
    ensures BuildMessage(message, title, None) == Success(TextMsg(TextContent(title, message)))
  {
    LowerOfLower("text");
  }

  lemma TextWithTitleExample()
    ensures BuildMessage("M", Some("T"), Some(map["type" := "text"]))
      == Success(TextMsg("T\n" + Divider + "\nM"))
  {
    LowerOfLower("text");
    var head := "T" + "\n";
    assert head == "T\n";
    assert "\n" + "M" == "\nM";
    assert TextContent(Some("T"), "M") == ((head + Divider) + "\n") + "M";
    assert ((head + Divider) + "\n") + "M" == (head + Divider) + ("\n" + "M");
  }

  lemma MarkdownWithoutTitleExample()
    ensures BuildMessage("M", None, Some(map["type" := "markdown"])) == Success(MarkdownMsg("通知", "M"))
  {
    var data := Some(map["type" := "markdown"]);
    LowerOfLower("markdown");
    assert RequestedType(data) == "markdown";
    BuildMessageDispatch("M", None, data);
  }

  /** `actionCard`, as the source's error message spells it, is accepted. */
  lemma ActionCardMixedCaseExample()
    ensures BuildMessage("M", None, Some(map["type" := "actionCard", "url" := "u"]))
      == Success(ActionCardMsg("通知", "M", "u"))
  {
    var data := Some(map["type" := "actionCard", "url" := "u"]);
    LowerSpelled("actionCard", "actioncard");
    assert RequestedType(data) == "actioncard";
    assert Field(DataOrEmpty(data), "url", "") == "u";
    BuildMessageDispatch("M", None, data);
  }

  /** `bogus` is rejected, and so is a present but empty type. */
  lemma UnsupportedTypeExamples()
    ensures BuildMessage("M", None, Some(map["type" := "bogus"])) == Failure(UnsupportedMessageType("bogus"))
    ensures BuildMessage("M", None, Some(map["type" := ""])) == Failure(UnsupportedMessageType(""))
  {
    LowerOfLower("bogus");
    BuildMessageDispatch("M", None, Some(map["type" := "bogus"]));
    BuildMessageDispatch("M", None, Some(map["type" := ""]));
  }

  /** `"LIN\U{212A}".lower()` is `"link"`, because KELVIN SIGN lower-cases to `k`. */
  lemma KelvinSignExample()
    ensures BuildMessage("M", Some("T"), Some(map["type" := "LIN\U{212A}", "picurl" := "p"]))
      == Success(LinkMsg("T", "M", "p", ""))
  {
    var data := Some(map["type" := "LIN\U{212A}", "picurl" := "p"]);
    LowerSpelled("LIN\U{212A}", "link");
    assert RequestedType(data) == "link";
    assert Field(DataOrEmpty(data), "picurl", "") == "p" && Field(DataOrEmpty(data), "url", "") == "";
    BuildMessageDispatch("M", Some("T"), data);
  }

  // ---------------------------------------------------------------------------------------
  // JSON

  datatype Json = JString(str: string) | JArray(items: seq<Json>) | JObject(fields: seq<(string, Json)>)

  /** The value of the first field named `key`. */
  function Lookup(fields: seq<(string, Json)>, key: string): Option<Json>
    decreases |fields|
  {
    if fields == [] then None
    else if fields[0].0 == key then Some(fields[0].1)
    else Lookup(fields[1..], key)
  }

  predicate DistinctKeys(fields: seq<(string, Json)>) {
    forall a, b :: 0 <= a < b < |fields| ==> fields[a].0 != fields[b].0
  }

  /** In an object whose keys are distinct, each key finds its own value. */
  lemma {:induction false} LookupDistinct(fields: seq<(string, Json)>, i: int)
    requires DistinctKeys(fields) && 0 <= i < |fields|
    ensures Lookup(fields, fields[i].0) == Some(fields[i].1)
    decreases i
  {
    if i > 0 {
      assert fields[0].0 != fields[i].0;
      assert DistinctKeys(fields[1..]) by {
        forall a, b | 0 <= a < b < |fields| - 1 ensures fields[1..][a].0 != fields[1..][b].0 {
          assert fields[1..][a] == fields[a + 1] && fields[1..][b] == fields[b + 1];
        }
      }
      LookupDistinct(fields[1..], i - 1);
    }
  }

  /** `j[key]` on an object. */
  function Get(j: Json, key: string): Option<Json> {
    if j.JObject? then Lookup(j.fields, key) else None
  }

  /** The keys of an object, in order. */
  function Keys(j: Json): (ks: seq<string>)
    ensures j.JObject? ==> |ks| == |j.fields| && forall i :: 0 <= i < |ks| ==> ks[i] == j.fields[i].0
  {
    if j.JObject? then seq(|j.fields|, i requires 0 <= i < |j.fields| => j.fields[i].0) else []
  }

  function Strings(xs: seq<string>): (js: seq<Json>)
    ensures |js| == |xs| && forall i :: 0 <= i < |xs| ==> js[i] == JString(xs[i])
  {
    seq(|xs|, i requires 0 <= i < |xs| => JString(xs[i]))
  }

  /** A payload as the dict the source writes, fields in its order. */
  function PayloadJson(p: Payload): (j: Json)
    ensures j.JObject?
    ensures p.TextMsg? ==> Keys(j) == ["content"] && Get(j, "content") == Some(JString(p.content))
    ensures !p.TextMsg? ==> Get(j, "title") == Some(JString(p.title)) && Get(j, "text") == Some(JString(p.text))
    ensures p.MarkdownMsg? ==> Keys(j) == ["title", "text"]
    ensures p.LinkMsg? ==>
      Keys(j) == ["title", "text", "picUrl", "messageUrl"]
      && Get(j, "picUrl") == Some(JString(p.picUrl)) && Get(j, "messageUrl") == Some(JString(p.messageUrl))
    ensures p.ActionCardMsg? ==>
      Keys(j) == ["title", "text", "btnOrientation", "singleTitle", "singleURL"]
      && Get(j, "btnOrientation") == Some(JString("0"))
      && Get(j, "singleTitle") == Some(JString(ReadFullText))
      && Get(j, "singleURL") == Some(JString(p.singleURL))
  {
    match p
    case TextMsg(c) =>
      var f := [("content", JString(c))];
      LookupDistinct(f, 0);
      JObject(f)
    case MarkdownMsg(t, x) =>
      var f := [("title", JString(t)), ("text", JString(x))];
      LookupDistinct(f, 0); LookupDistinct(f, 1);
      JObject(f)
    case LinkMsg(t, x, pic, u) =>
      var f := [("title", JString(t)), ("text", JString(x)), ("picUrl", JString(pic)), ("messageUrl", JString(u))];
      LookupDistinct(f, 0); LookupDistinct(f, 1); LookupDistinct(f, 2); LookupDistinct(f, 3);
      JObject(f)
    case ActionCardMsg(t, x, u) =>
      var f := [("title", JString(t)), ("text", JString(x)), ("btnOrientation", JString("0")),
                ("singleTitle", JString(ReadFullText)), ("singleURL", JString(u))];
      LookupDistinct(f, 0); LookupDistinct(f, 1); LookupDistinct(f, 2); LookupDistinct(f, 3); LookupDistinct(f, 4);
      JObject(f)
  }

  /** `atmoblies or []`: the phone numbers to mention; a missing and an empty target both
      mention nobody. */
  function MentionsOrEmpty(target: Option<seq<string>>): (m: seq<string>)
    ensures target.Some? ==> m == target.value
    ensures m == [] <==> target.None? || target.value == []
  {
    target.GetOr([])
  }

  /** The `at` block: the mentioned numbers, no user ids, and the string (not boolean) "false". */
  function AtJson(target: Option<seq<string>>): (j: Json)
    ensures Keys(j) == ["atMobiles", "atUserIds", "isAtAll"]
    ensures Get(j, "atMobiles") == Some(JArray(Strings(MentionsOrEmpty(target))))
    ensures Get(j, "atUserIds") == Some(JArray([]))
    ensures Get(j, "isAtAll") == Some(JString("false"))
  {
    var fields := [("atMobiles", JArray(Strings(MentionsOrEmpty(target)))),
                   ("atUserIds", JArray([])),
                   ("isAtAll", JString("false"))];
    LookupDistinct(fields, 0); LookupDistinct(fields, 1); LookupDistinct(fields, 2);
    JObject(fields)
  }

  /** The request body: the `at` block, the type name, and the payload under its type name. */
  function EnvelopeJson(p: Payload, target: Option<seq<string>>): (j: Json)
    ensures Keys(j) == ["at", "msgtype", TypeName(Kind(p))]
    ensures Get(j, "at") == Some(AtJson(target))
    ensures Get(j, "msgtype") == Some(JString(TypeName(Kind(p))))
    ensures Get(j, TypeName(Kind(p))) == Some(PayloadJson(p))
  {
    var name := TypeName(Kind(p));
    ParseTypeName(Kind(p));
    var fields := [("at", AtJson(target)), ("msgtype", JString(name)), (name, PayloadJson(p))];
    LookupDistinct(fields, 0); LookupDistinct(fields, 1); LookupDistinct(fields, 2);
    JObject(fields)
  }

  /** The three keys of the envelope are distinct, so no entry of the dict literal is lost. */
  lemma EnvelopeKeysDistinct(p: Payload, target: Option<seq<string>>)
    ensures var ks := Keys(EnvelopeJson(p, target));
      forall i, k :: 0 <= i < k < |ks| ==> ks[i] != ks[k]
  {
    ParseTypeName(Kind(p));
  }

  /** An absent target and an empty one give the same envelope. */
  lemma EnvelopeFalsyTarget(p: Payload)
    ensures EnvelopeJson(p, None) == EnvelopeJson(p, Some([]))
  {
  }

  // ---------------------------------------------------------------------------------------
  // Signing and the send URL

  /** The text the HMAC is computed over. */
  function StringToSign(timestamp: string, secret: string): string {
    timestamp + "\n" + secret
  }

  /** The bytes of the string to sign: the timestamp's, a line feed, the secret's. */
  lemma StringToSignBytes(timestamp: string, secret: string)
    ensures Utf8.Encode(StringToSign(timestamp, secret)) == Utf8.Encode(timestamp) + [10] + Utf8.Encode(secret)
  {
    var nl := Utf8.Encode("\n");
    assert nl == [10] by {
      assert Utf8.Encode("\n") == Utf8.EncodeChar('\n') + Utf8.Encode("\n"[1..]);
    }
    Utf8.EncodeAppend(timestamp, "\n");
    Utf8.EncodeAppend(timestamp + "\n", secret);
  }

  /** Distinct timestamps give distinct strings to sign, whatever the secret. */
  lemma StringToSignInjective(t1: string, t2: string, secret: string)
    requires t1 != t2
    ensures StringToSign(t1, secret) != StringToSign(t2, secret)
  {
    var s1, s2 := StringToSign(t1, secret), StringToSign(t2, secret);
    if |t1| == |t2| {
      assert s1[..|t1|] == t1 && s2[..|t2|] == t2;
    }
  }

  /** `quote_plus(b64encode(digest))`. */
  function EncodeSignature(digest: Digest): string {
    Quote.QuotePlus(Base64.Encode(digest))
  }

  /** The digest a signature carries, by unquoting and Base64-decoding it. */
  function SignatureDigest(sign: string): Option<seq<byte>> {
    match Quote.UnquotePlus(sign)
    case None => None
    case Some(b) => Base64.Decode(b)
  }

  /** The Base64 text of a digest: 44 bytes, exactly one final pad, no space. */
  lemma DigestBase64(digest: Digest)
    ensures var b := Base64.Encode(digest); |b| == 44 && b[43] == Base64.Pad && b[42] != Base64.Pad && 32 !in b
  {
    Base64.EncodeNoSpace(digest);
    Base64.EncodeOnePad(digest);
  }

  /** A signature encodes its digest without loss. */
  lemma EncodeSignatureRoundTrip(digest: Digest)
    ensures SignatureDigest(EncodeSignature(digest)) == Some(digest)
  {
    var b := Base64.Encode(digest);
    Quote.UnquoteQuote(b);
    Base64.DecodeEncode(digest);
  }

  /** A signature uses only URL-safe characters (never a raw `+`, `/`, `=` or `&`) and, since 32
      bytes leave one Base64 pad, ends in `%3D`. */
  lemma EncodeSignatureAlphabet(digest: Digest)
    ensures var r := EncodeSignature(digest);
      44 <= |r| <= 132 && r[|r| - 3..] == "%3D"
      && (forall k :: 0 <= k < |r| ==> Quote.IsQuotedChar(r[k]))
      && '+' !in r
  {
    var b := Base64.Encode(digest);
    DigestBase64(digest);
    Quote.QuotePlusAlphabet(b);
    Quote.QuotePlusEndsInPad(b);
  }

  /** The send URL: the webhook, with the timestamp and signature appended when there is a
      signature. */
  function SignedUrl(webhook: string, timestamp: string, sign: string): (url: string)
    ensures |webhook| <= |url| && url[..|webhook|] == webhook
    ensures sign == "" ==> url == webhook
  {
    if sign != "" then webhook + "&timestamp=" + timestamp + "&sign=" + sign else webhook
  }

  /** The length of the longest prefix of `s` without `&`. */
  function AmpIndex(s: string): (i: nat)
    ensures i <= |s| && (forall k :: 0 <= k < i ==> s[k] != '&') && (i < |s| ==> s[i] == '&')
    decreases |s|
  {
    if s == [] || s[0] == '&' then 0 else 1 + AmpIndex(s[1..])
  }

  /** Reads the timestamp and the signature back from what `SignedUrl` appended. */
  function SplitSignedQuery(q: string): Option<(string, string)> {
    var head := "&timestamp=";
    if |q| < |head| || q[..|head|] != head then None
    else
      var rest := q[|head|..];
      var i := AmpIndex(rest);
      var tail := rest[i..];
      if |tail| < 6 || tail[..6] != "&sign=" then None else Some((rest[..i], tail[6..]))
  }

  /** The appended query is unambiguous: a timestamp without `&` and the signature after it are
      read back exactly, and whatever is read back was appended that way. */
  lemma SplitSignedQueryRoundTrip(timestamp: string, sign: string)
    requires forall k :: 0 <= k < |timestamp| ==> timestamp[k] != '&'
    ensures SplitSignedQuery("&timestamp=" + timestamp + "&sign=" + sign) == Some((timestamp, sign))
  {
    var q := "&timestamp=" + timestamp + "&sign=" + sign;
    assert q[..11] == "&timestamp=";
    var rest := q[11..];
    assert rest == timestamp + "&sign=" + sign;
    AmpIndexPrefix(timestamp, "&sign=" + sign);
    assert rest[..|timestamp|] == timestamp;
    var tail := rest[|timestamp|..];
    assert tail == "&sign=" + sign;
    assert tail[..6] == "&sign=" && tail[6..] == sign;
  }

  lemma AmpIndexPrefix(a: string, b: string)
    requires forall k :: 0 <= k < |a| ==> a[k] != '&'
    requires b != [] && b[0] == '&'
    ensures AmpIndex(a + b) == |a|
  {
    assert (a + b)[|a|] == '&';
    assert forall k :: 0 <= k < |a| ==> (a + b)[k] == a[k];
  }

  lemma SplitSignedQuerySound(q: string, timestamp: string, sign: string)
    requires SplitSignedQuery(q) == Some((timestamp, sign))
    ensures q == "&timestamp=" + timestamp + "&sign=" + sign
    ensures forall k :: 0 <= k < |timestamp| ==> timestamp[k] != '&'
  {
    var rest := q[11..];
    var i := AmpIndex(rest);
    assert q == q[..11] + rest;
    assert rest == rest[..i] + rest[i..];
    assert rest[i..] == rest[i..][..6] + rest[i..][6..];
  }

  /** A post: where the body goes and what it is. */
  datatype Post = Post(url: string, body: Json)

  // ---------------------------------------------------------------------------------------
  // The service

  /** A notification service for one robot: its webhook and its trimmed secret. */
  class NotificationService {
    const webhook: string
    const secret: string

    /** The secret is kept without surrounding white space. */
    constructor (webhook: string, secret: string)
      ensures this.webhook == webhook && this.secret == Strip(secret)
      ensures Strip(this.secret) == this.secret
    {
      this.webhook := webhook;
      this.secret := Strip(secret);
      StripIdempotent(secret);
    }

    /** The signature for `timestamp`: nothing without a secret, otherwise the URL-quoted Base64
        of the HMAC-SHA256, keyed by the secret's UTF-8 bytes, of `"{timestamp}\n{secret}"`. */
    function Sign(timestamp: string, hmac: Hmac): (r: string)
      ensures secret == "" <==> r == ""
      ensures secret != "" ==>
        SignatureDigest(r) == Some(hmac(Utf8.Encode(secret), Utf8.Encode(StringToSign(timestamp, secret))))
      ensures secret != "" ==>
        44 <= |r| <= 132 && r[|r| - 3..] == "%3D"
        && (forall k :: 0 <= k < |r| ==> Quote.IsQuotedChar(r[k]))
        && '+' !in r
    {
      if secret == "" then ""
      else
        var digest := hmac(Utf8.Encode(secret), Utf8.Encode(StringToSign(timestamp, secret)));
        EncodeSignatureRoundTrip(digest);
        EncodeSignatureAlphabet(digest);
        EncodeSignature(digest)
    }

    /** The URL a send posts to. */
    function SendUrl(timestamp: string, hmac: Hmac): (url: string)
      ensures secret == "" ==> url == webhook
      ensures secret != "" ==> url == webhook + "&timestamp=" + timestamp + "&sign=" + Sign(timestamp, hmac)
      ensures |webhook| <= |url| && url[..|webhook|] == webhook
    {
      SignedUrl(webhook, timestamp, Sign(timestamp, hmac))
    }

    /** With a secret, the signed URL ends in `&timestamp=<digits>&sign=<quoted signature>`, and
        both values can be read back from it. */
    lemma SendUrlQuery(nowMillis: nat, hmac: Hmac)
      requires secret != ""
      ensures var ts := Decimal(nowMillis); var url := SendUrl(ts, hmac);
        SplitSignedQuery(url[|webhook|..]) == Some((ts, Sign(ts, hmac)))
        && DecimalValue(ts) == nowMillis
    {
      var ts := Decimal(nowMillis);
      var url := SendUrl(ts, hmac);
      assert url[|webhook|..] == "&timestamp=" + ts + "&sign=" + Sign(ts, hmac);
      SplitSignedQueryRoundTrip(ts, Sign(ts, hmac));
      DecimalRoundTrip(nowMillis);
    }

    /** Steps 1 and 2 of `send_message`: the URL, with the signature parameters appended when
        there is a signature. */
    method BuildSendUrl(timestamp: string, hmac: Hmac) returns (sendUrl: string)
      ensures sendUrl == SendUrl(timestamp, hmac)
    {
      var sign := Sign(timestamp, hmac);
      sendUrl := webhook;
      if sign != "" {
        sendUrl := sendUrl + "&timestamp=" + timestamp + "&sign=" + sign;
      }
    }

    /** Steps 3 and 4 of `send_message`: reads the arguments and builds the payload of the
        requested type, or stops on an unsupported one. */
    method BuildMsg(message: string, title: Option<string>, data: Option<Data>)
      returns (r: Result<Payload, BuildError>)
      ensures r == BuildMessage(message, title, data)
    {
      var d := DataOrEmpty(data);
      var msgtype := Lower(Field(d, "type", "text"));
      var url := Field(d, "url", "");
      var picurl := Field(d, "picurl", "");
      BuildMessageDispatch(message, title, data);

      if msgtype == "text" {
        var content := "";
        if Truthy(title) {
          content := content + title.value + "\n" + Divider + "\n";
        }
        content := content + message;
        assert content == TextContent(title, message);
        r := Success(TextMsg(content));
      } else if msgtype == "markdown" {
        r := Success(MarkdownMsg(TitleOrDefault(title), message));
      } else if msgtype == "link" {
        r := Success(LinkMsg(TitleOrDefault(title), message, picurl, url));
      } else if msgtype == "actioncard" {
        r := Success(ActionCardMsg(TitleOrDefault(title), message, url));
      } else {
        r := Failure(UnsupportedMessageType(msgtype));
      }
    }

    /** `send_message` up to the POST: the URL and the body it would post, or the reason it
        posts nothing. `nowMillis` stands for the clock reading in milliseconds. */
    method SendMessage(message: string, title: Option<string>, data: Option<Data>,
                       target: Option<seq<string>>, nowMillis: nat, hmac: Hmac)
      returns (r: Result<Post, BuildError>)
      ensures BuildMessage(message, title, data).Failure? ==> r == Failure(BuildMessage(message, title, data).error)
      ensures BuildMessage(message, title, data).Success? ==>
        r == Success(Post(SendUrl(Decimal(nowMillis), hmac), EnvelopeJson(BuildMessage(message, title, data).value, target)))
    {
      var timestamp := Decimal(nowMillis);
      var sendUrl := BuildSendUrl(timestamp, hmac);
      var msg := BuildMsg(message, title, data);
      if msg.Failure? {
        return Failure(msg.error);
      }
      r := Success(Post(sendUrl, EnvelopeJson(msg.value, target)));
    }
  }
}
