# DingTalk robot notifier, modelled in Dafny

This is a model of the core of a Home Assistant notification integration that posts messages to
a DingTalk group robot. It covers `DingtalkNotificationService`:

- it keeps the webhook and the trimmed secret;
- it signs a millisecond timestamp with HMAC-SHA256 keyed by the secret, then Base64-encodes and
  URL-quotes the digest;
- it appends `&timestamp=…&sign=…` to the webhook when there is a signature;
- it reads a case-insensitive message type from the call's `data`, builds a `text`, `markdown`,
  `link` or `actioncard` payload, or refuses any other type;
- it wraps the payload in the request body with its `at` block.

Modules:

- `Wrappers`: `Option` and `Result`.
- `Bytes`: the `byte` type.
- `Text`: Python's `str.strip()`, `str.lower()` and `str(int)`.
- `Utf8`: `str.encode("utf-8")`, plus a strict decoder that inverts it.
- `Base64`: `base64.b64encode`, plus a decoder that inverts it.
- `Quote`: `urllib.parse.quote_plus` on bytes, plus an unquoting that inverts it.
- `Dingtalk`: the constants, the message types and payloads, a small JSON value type, the signing
  scheme, and the class `NotificationService`.
  - The class's constructor models `__init__`, and its `Sign` function models `_sign`.
  - Its `SendUrl` function states the URL that `send_message` posts to.
  - The methods `BuildSendUrl`, `BuildMsg` and `SendMessage` follow `send_message` step by step.
  - What a send would post is a `Post(url, body)` value. A refused message type is a `Failure`
    naming that type.

The clock reading and HMAC-SHA256 are parameters: `nowMillis: nat`, and
`hmac: (seq<byte>, seq<byte>) -> Digest` with a 32-byte digest. Each contract about the signature
holds for every such function.

## Model

| member | source | states |
|---|---|---|
| Dingtalk.NotificationService.constructor | custom_components/dingtalk/__init__.py:36-38 | the webhook is kept as given; the secret is kept stripped, and a second strip would change nothing |
| Text.StripCharacterized | custom_components/dingtalk/__init__.py:38 | `strip()` returns a slice of its input; everything it drops before and after is white space, and the result neither starts nor ends with white space |
| Text.StripIdempotent | custom_components/dingtalk/__init__.py:38 | stripping an already stripped secret leaves it unchanged |
| Text.StripAllSpace | custom_components/dingtalk/__init__.py:38 | a secret made only of white space strips to the empty string, so it signs nothing |
| Dingtalk.NotificationService.Sign | custom_components/dingtalk/__init__.py:41-51 | the signature is empty exactly when the secret is empty; otherwise unquoting it and Base64-decoding it gives back exactly the HMAC keyed by the UTF-8 bytes of the secret over the UTF-8 bytes of `timestamp + "\n" + secret`, and it is 44 to 132 URL-safe characters ending in `%3D`, with no raw `+` |
| Dingtalk.StringToSignBytes | custom_components/dingtalk/__init__.py:45-47 | the signed bytes are the timestamp's UTF-8 bytes, a line feed (10), then the secret's UTF-8 bytes |
| Dingtalk.StringToSignInjective | custom_components/dingtalk/__init__.py:46 | two different timestamps give two different strings to sign under the same secret |
| Utf8.EncodeChar | custom_components/dingtalk/__init__.py:45 | one character encodes to 1 to 4 bytes, and to a single byte equal to its code exactly when it is below 0x80 |
| Utf8.Encode | custom_components/dingtalk/__init__.py:45 | encoding a string gives between one and four bytes per character |
| Utf8.EncodeAppend | custom_components/dingtalk/__init__.py:47 | the encoding of a concatenation is the concatenation of the encodings |
| Utf8.EncodeAscii | custom_components/dingtalk/__init__.py:47 | an ASCII string such as a digit timestamp encodes to one byte per character, each equal to its code |
| Utf8.DecodeEncode | custom_components/dingtalk/__init__.py:45-47 | strict UTF-8 decoding gives back every encoded string, so the encoding loses nothing |
| Utf8.EncodeInjective | custom_components/dingtalk/__init__.py:45 | different secrets give different HMAC keys |
| Base64.Encode | custom_components/dingtalk/__init__.py:51 | `b64encode` writes four characters for each started group of three bytes |
| Base64.DecodeEncode | custom_components/dingtalk/__init__.py:51 | decoding the Base64 text gives back exactly the encoded bytes |
| Base64.EncodeAlphabet | custom_components/dingtalk/__init__.py:51 | the text is alphabet letters followed by `(3 - n % 3) % 3` `=` pads, for n input bytes |
| Base64.EncodeOnePad | custom_components/dingtalk/__init__.py:51 | when two bytes are left after the last full group, the text ends in exactly one `=` |
| Base64.EncodeNoSpace | custom_components/dingtalk/__init__.py:51 | Base64 text never contains a space, and ends in a pad when n % 3 == 2 |
| Quote.QuotePlus | custom_components/dingtalk/__init__.py:51 | `quote_plus` writes between one and three characters per byte |
| Quote.UnquoteQuote | custom_components/dingtalk/__init__.py:51 | unquoting gives back exactly the quoted bytes |
| Quote.QuotePlusAlphabet | custom_components/dingtalk/__init__.py:51 | every output character is an unreserved character, `%`, an upper-case hex digit or `+`, and there is no `+` unless the input has a space |
| Quote.QuotePlusEndsInPad | custom_components/dingtalk/__init__.py:51 | text ending in a Base64 pad is quoted to end in `%3D` |
| Dingtalk.DigestBase64 | custom_components/dingtalk/__init__.py:48-51 | a 32-byte digest's Base64 text is 44 bytes long, ends in one `=`, and has no space |
| Dingtalk.EncodeSignatureRoundTrip | custom_components/dingtalk/__init__.py:48-51 | the quoted Base64 signature decodes back to its digest |
| Dingtalk.EncodeSignatureAlphabet | custom_components/dingtalk/__init__.py:51 | a signature is 44 to 132 characters of URL-safe text ending in `%3D`, never a raw `+`, `/`, `=` or `&` |
| Text.Decimal | custom_components/dingtalk/__init__.py:56 | `str()` of the millisecond count is a non-empty run of digits with no leading zero except for 0 |
| Text.DecimalRoundTrip | custom_components/dingtalk/__init__.py:56 | the timestamp text reads back as the millisecond count |
| Text.DecimalInjective | custom_components/dingtalk/__init__.py:56 | different millisecond counts give different timestamps |
| Dingtalk.SignedUrl | custom_components/dingtalk/__init__.py:58-62 | the send URL always starts with the webhook, and is the webhook itself when the signature is empty |
| Dingtalk.NotificationService.SendUrl | custom_components/dingtalk/__init__.py:57-62 | with no secret the URL is the webhook; with one it is the webhook + `&timestamp=` + timestamp + `&sign=` + signature |
| Dingtalk.NotificationService.BuildSendUrl | custom_components/dingtalk/__init__.py:57-62 | the step-by-step URL construction yields `SendUrl` |
| Dingtalk.SplitSignedQueryRoundTrip | custom_components/dingtalk/__init__.py:62 | the appended query reads back as the same timestamp and signature when the timestamp has no `&` |
| Dingtalk.SplitSignedQuerySound | custom_components/dingtalk/__init__.py:62 | any query that reads back as a (timestamp, signature) pair was appended in exactly that form |
| Dingtalk.NotificationService.SendUrlQuery | custom_components/dingtalk/__init__.py:56-62 | with a secret, the part of the URL after the webhook reads back as the timestamp and its signature, and that timestamp reads back as the clock reading |
| Dingtalk.DataOrEmpty | custom_components/dingtalk/__init__.py:66 | `data or {}`: a given map is used as it is, and the result has no entries exactly when `data` is missing or empty |
| Text.Lower | custom_components/dingtalk/__init__.py:67 | lower-casing keeps the length |
| Text.LowerAt | custom_components/dingtalk/__init__.py:67 | each character of the lower-cased text is its own lower case |
| Text.LowerIdempotent | custom_components/dingtalk/__init__.py:67 | lower-casing twice equals lower-casing once |
| Dingtalk.TitleOrDefault | custom_components/dingtalk/__init__.py:82 | `title or "通知"`: a non-empty title is used, while an absent or empty one gives the default; the result is never empty |
| Dingtalk.ParseType | custom_components/dingtalk/__init__.py:74-101 | a type name is accepted exactly when it is one of `text`, `markdown`, `link`, `actioncard`, and an accepted type's name is that name |
| Dingtalk.ParseTypeName | custom_components/dingtalk/__init__.py:116-117 | each type's name parses back to that type, and none collides with the envelope keys `at` and `msgtype` |
| Dingtalk.TextContent | custom_components/dingtalk/__init__.py:74-79 | the content is title + `"\n"` + divider + `"\n"` + message when the title is non-empty, the message alone otherwise, and it always ends with the message |
| Dingtalk.BuildPayload | custom_components/dingtalk/__init__.py:74-99 | the payload has the requested type: a text payload has the text content; the others have the defaulted title and the message as text; a link has the picture URL and the URL; an action card has the URL |
| Dingtalk.BuildMessage | custom_components/dingtalk/__init__.py:65-103 | the build succeeds exactly when the lower-cased `type` (default `text`) is supported; a failure names that type; a success carries the payload of that type built from `url` and `picurl` (default `""`) |
| Dingtalk.BuildMessageCaseInsensitive | custom_components/dingtalk/__init__.py:67 | two `data` arguments, given or missing, whose requested types (the lower-cased `type`, default `text`) agree and whose `url` and `picurl` agree give the same result |
| Dingtalk.UpperCaseDefaultExample | custom_components/dingtalk/__init__.py:67 | a `type` of `TEXT` gives the same message as no `data` at all |
| Dingtalk.BuildMessageFalsyArguments | custom_components/dingtalk/__init__.py:65-82 | an empty title acts as no title, and an empty `data` acts as none |
| Dingtalk.BuildMessageDispatch | custom_components/dingtalk/__init__.py:74-103 | the dispatch table: each of the four lower-cased names gives its payload, and every other name is refused with that name |
| Dingtalk.DefaultTypeIsText | custom_components/dingtalk/__init__.py:67 | with no `data` the message is a text message |
| Dingtalk.TextWithTitleExample | custom_components/dingtalk/__init__.py:74-79 | title `T` and message `M` give the content `T\n` + divider + `\nM` |
| Dingtalk.MarkdownWithoutTitleExample | custom_components/dingtalk/__init__.py:81-82 | markdown with no title takes the title `通知` |
| Dingtalk.ActionCardMixedCaseExample | custom_components/dingtalk/__init__.py:92-99 | `actionCard` is accepted as an action card, with the URL as its single URL |
| Dingtalk.UnsupportedTypeExamples | custom_components/dingtalk/__init__.py:101-103 | `bogus` is refused, and so is a present but empty type |
| Dingtalk.KelvinSignExample | custom_components/dingtalk/__init__.py:84-90 | `LIN` + KELVIN SIGN lower-cases to `link` and builds a link with the given picture URL and an empty URL |
| Dingtalk.PayloadJson | custom_components/dingtalk/__init__.py:79-99 | each payload dict has the source's keys in the source's order and values; an action card has `btnOrientation` `"0"` and `singleTitle` `阅读全文` |
| Dingtalk.MentionsOrEmpty | custom_components/dingtalk/__init__.py:112 | `atmoblies or []`: a given list is used as it is, and nobody is mentioned exactly when the target is missing or empty |
| Dingtalk.AtJson | custom_components/dingtalk/__init__.py:111-115 | the `at` block holds the mentioned numbers, `atUserIds` `[]`, and `isAtAll` the string `"false"` |
| Dingtalk.EnvelopeJson | custom_components/dingtalk/__init__.py:110-118 | the body has the keys `at`, `msgtype` and the type name, bound to the `at` block, the type name and the payload |
| Dingtalk.EnvelopeKeysDistinct | custom_components/dingtalk/__init__.py:110-118 | the three keys of the body are distinct, so the dict literal loses no entry |
| Dingtalk.EnvelopeFalsyTarget | custom_components/dingtalk/__init__.py:112 | no target and an empty target give the same body |
| Dingtalk.NotificationService.BuildMsg | custom_components/dingtalk/__init__.py:64-103 | the step-by-step argument reading and if-chain yield `BuildMessage` |
| Dingtalk.NotificationService.SendMessage | custom_components/dingtalk/__init__.py:53-118 | an unsupported type posts nothing and reports that type; otherwise the post goes to `SendUrl` of the clock's decimal timestamp, with the envelope of the built payload as body |

## Left out

- The HTTP POST, `json.dumps` of the body, the response check and its error logging (lines 121-141): these are network I/O. The model stops at the `Post` value a send would make. Its `Json` value keeps key order, which `json.dumps` preserves.
- `time.time()`: the clock is the parameter `nowMillis`, standing for `round(time.time() * 1000)`. Rounding a floating-point number is not modelled.
- HMAC-SHA256 and its hash: the algorithm is a parameter. The contracts hold for every keyed function with a 32-byte result.
- Logging (line 39 and the `_LOGGER` calls): no effect on what is sent.
- Home Assistant registration and the async wrapper (lines 144-181): host glue, no behaviour of the notifier itself.
- The `except Exception` around the payload build (lines 105-107): with string arguments nothing in that block can raise, so the model has no such error.
- `data` values other than strings: the model types `data` as a map from strings to strings. A non-string `type` would raise at line 67, outside any handler.
- Text.Lower: lower-cases ASCII letters and KELVIN SIGN (the only non-ASCII character whose lower case is an ASCII letter), and keeps every other character. So it decides acceptance of a type exactly as `str.lower()` does, but it does not reproduce other non-ASCII case mappings.
- Utf8.Encode: a Dafny `char` is a Unicode scalar value, so lone surrogates, which Python would refuse to encode, cannot occur.
- The decoders `Utf8.Decode`, `Base64.Decode` and `Quote.UnquotePlus` are strict reference inverses written for the round-trip lemmas. They are not models of Python's more lenient decoders.
- The source logs an unsupported type and returns nothing. The model returns `Failure(UnsupportedMessageType(type))` instead, so the outcome can be stated.
