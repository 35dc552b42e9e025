/**
 * The request/response logging interceptor: which requests it skips, how it
 * redacts secrets out of headers, queries and bodies before they reach the
 * log, and how it bounds the body and response previews.
 *
 * Key and header matching lower-cases ASCII letters only (`Text.Lower`).
 * `JSON.stringify` and `Buffer.byteLength` are parameters of the preview
 * functions: what they answer is not modelled, only how the previews use it.
 */
module LoggingInterceptor {
  import opened Wrappers
  import opened Text
  import opened Json

  const Redacted: string := "[REDACTED]"
  /** The value every redacted scalar becomes. */
  const Mask: Json := JStr(Redacted)

  const MaxPreviewChars: nat := 1024
  const MaxBodyLogBytes: nat := 64 * 1024

  const BinaryOmitted: string := "[BINARY_OR_MULTIPART_BODY_OMITTED]"
  const BodyTooLarge: string := "[BODY_TOO_LARGE_OMITTED]"
  const BodyUnserializable: string := "[BODY_UNSERIALIZABLE]"
  const NonTextOmitted: string := "[NON_TEXT_RESPONSE_OMITTED]"
  const ResponseUnserializable: string := "[RESPONSE_UNSERIALIZABLE]"

  /** U+2026, the ellipsis appended to a cut preview. */
  const Ellipsis: string := "\U{2026}"
  /** The three characters the source file holds in its place: the UTF-8 bytes E2 80 A6 read as Windows-1252. */
  const Mojibake: string := "\U{E2}\U{20AC}\U{A6}"

  // ---------------------------------------------------------------------
  // Sensitive field names
  // ---------------------------------------------------------------------

  /** `/api[-_]?key/i` on a lower-cased key. */
  predicate ApiKey(l: string) {
    Contains(l, "apikey") || Contains(l, "api-key") || Contains(l, "api_key")
  }

  /**
   * `SENSITIVE_FIELD_PATTERNS.some(re => re.test(key))`, pattern by pattern,
   * each case-insensitive. `/pass(i)?/` matches wherever `pass` occurs (the
   * group may match nothing); `/^pwd$/` is anchored at both ends.
   */
  predicate ShouldRedactKey(key: string) {
    var l := Lower(key);
    || Contains(l, "password")
    || Contains(l, "pass")
    || l == "pwd"
    || Contains(l, "secret")
    || Contains(l, "token")
    || Contains(l, "bearer")
    || Contains(l, "session")
    || ApiKey(l)
    || Contains(l, "clientsecret") || Contains(l, "client-secret") || Contains(l, "client_secret")
    || Contains(l, "refresh_token") || Contains(l, "refresh-token") || Contains(l, "refreshtoken")
    || Contains(l, "access_token") || Contains(l, "access-token") || Contains(l, "accesstoken")
  }

  /**
   * The patterns reduce to seven fragments and one exact name: a key is
   * sensitive exactly when, lower-cased, it equals `pwd` or contains `pass`,
   * `secret`, `token`, `bearer`, `session` or an `api key` spelling. The
   * longer patterns (`password`, `client…secret`, `refresh…token`,
   * `access…token`) never add a key.
   */
  lemma ShouldRedactKeyIff(key: string)
    ensures var l := Lower(key);
      ShouldRedactKey(key) <==>
        (|| l == "pwd"
         || Contains(l, "pass")
         || Contains(l, "secret")
         || Contains(l, "token")
         || Contains(l, "bearer")
         || Contains(l, "session")
         || ApiKey(l))
  {
    var l := Lower(key);
    InnerFragment(l, "password", "", "pass", "word");
    InnerFragment(l, "clientsecret", "client", "secret", "");
    InnerFragment(l, "client-secret", "client-", "secret", "");
    InnerFragment(l, "client_secret", "client_", "secret", "");
    InnerFragment(l, "refresh_token", "refresh_", "token", "");
    InnerFragment(l, "refresh-token", "refresh-", "token", "");
    InnerFragment(l, "refreshtoken", "refresh", "token", "");
    InnerFragment(l, "access_token", "access_", "token", "");
    InnerFragment(l, "access-token", "access-", "token", "");
    InnerFragment(l, "accesstoken", "access", "token", "");
  }

  /** A string containing `long`, which is `x + y + z`, contains `y`. */
  lemma InnerFragment(l: string, long: string, x: string, y: string, z: string)
    requires long == x + y + z
    ensures Contains(l, long) ==> Contains(l, y)
  {
    assert long[|x|..|x| + |y|] == y;
    OffsetContains(long, y, |x|);
    if Contains(l, long) {
      ContainsTrans(l, long, y);
    }
  }

  lemma {:induction false} OffsetContains(s: string, sub: string, at: nat)
    requires at + |sub| <= |s| && s[at..at + |sub|] == sub
    ensures Contains(s, sub)
    decreases at
  {
    if at == 0 {
      assert s[..|sub|] == sub;
    } else {
      assert s[1..][at - 1..at - 1 + |sub|] == s[at..at + |sub|];
      OffsetContains(s[1..], sub, at - 1);
    }
  }

  // ---------------------------------------------------------------------
  // redactValue
  // ---------------------------------------------------------------------

  /** `n` copies of the mask. */
  function Masks(n: nat): (r: seq<Json>)
    ensures |r| == n
    ensures forall i :: 0 <= i < n ==> r[i] == Mask
  {
    if n == 0 then [] else Masks(n - 1) + [Mask]
  }

  /** The same keys, every value masked. */
  function MaskedEntries(entries: seq<Entry>): (r: seq<Entry>)
    ensures |r| == |entries|
    ensures forall i :: 0 <= i < |entries| ==> r[i] == Entry(entries[i].key, Mask)
  {
    if entries == [] then [] else [Entry(entries[0].key, Mask)] + MaskedEntries(entries[1..])
  }

  /**
   * What `redactValue` makes of the value under a sensitive key: null and
   * undefined stay; strings, numbers and booleans become the mask; an array
   * becomes as many masks; an object keeps its keys with every value masked.
   */
  function RedactedValue(v: Json): (r: Json)
    ensures IsNullish(v) ==> r == v
    ensures (v.JStr? || v.JNum? || v.JBool?) ==> r == Mask
    ensures v.JArr? ==> r.JArr? && |r.items| == |v.items| && forall i :: 0 <= i < |r.items| ==> r.items[i] == Mask
    ensures v.JObj? ==> r.JObj? && Keys(r.entries) == Keys(v.entries)
    ensures v.JObj? ==> forall i :: 0 <= i < |r.entries| ==> r.entries[i].value == Mask
  {
    match v
    case JUndefined => v
    case JNull => v
    case JArr(items) => JArr(Masks(|items|))
    case JObj(entries) => JObj(MaskedEntries(entries))
    case _ => Mask
  }

  /** The shapes `redactValue` produces. */
  predicate Masked(v: Json) {
    match v
    case JUndefined => true
    case JNull => true
    case JStr(s) => s == Redacted
    case JArr(items) => forall i :: 0 <= i < |items| ==> items[i] == Mask
    case JObj(entries) => forall i :: 0 <= i < |entries| ==> entries[i].value == Mask
    case _ => false
  }

  /** Redacting a value already in masked form leaves it as it is. */
  lemma MaskedFixed(v: Json)
    requires Masked(v)
    ensures RedactedValue(v) == v
  {
    match v
    case JArr(items) =>
      assert RedactedValue(v).items == items;
    case JObj(entries) =>
      var r := RedactedValue(v).entries;
      forall i | 0 <= i < |entries| ensures r[i] == entries[i] {
        assert Keys(r)[i] == Keys(entries)[i];
      }
      assert r == entries;
    case _ =>
  }

  /** `redactValue(val)`, filling the new array or object one slot at a time. */
  method RedactValue(v: Json) returns (r: Json)
    ensures r == RedactedValue(v)
  {
    if IsNullish(v) {
      return v;
    }
    match v {
      case JArr(items) =>
        var out: seq<Json> := [];
        var i := 0;
        while i < |items|
          invariant 0 <= i <= |items|
          invariant out == Masks(i)
        {
          out := out + [Mask];
          i := i + 1;
        }
        r := JArr(out);
      case JObj(entries) =>
        var out: seq<Entry> := [];
        var i := 0;
        while i < |entries|
          invariant 0 <= i <= |entries|
          invariant out == MaskedEntries(entries[..i])
        {
          assert MaskedEntries(entries[..i + 1]) == out + [Entry(entries[i].key, Mask)];
          out := out + [Entry(entries[i].key, Mask)];
          i := i + 1;
        }
        assert entries[..i] == entries;
        r := JObj(out);
      case _ =>
        r := Mask;
    }
  }

  // ---------------------------------------------------------------------
  // deepRedact
  // ---------------------------------------------------------------------

  /**
   * `deepRedact`: arrays are redacted element by element; in an object every
   * value under a sensitive key goes through `redactValue` and every other
   * value is redacted in turn; anything else is returned as it is.
   */
  function DeepRedacted(v: Json): (r: Json)
    decreases v
  {
    match v
    case JArr(items) =>
      JArr(seq(|items|, i requires 0 <= i < |items| => DeepRedacted(items[i])))
    case JObj(entries) =>
      JObj(seq(|entries|, i requires 0 <= i < |entries| =>
        Entry(entries[i].key,
              if ShouldRedactKey(entries[i].key) then RedactedValue(entries[i].value)
              else DeepRedacted(entries[i].value))))
    case _ => v
  }

  /** The top level of a value `redactValue` may have replaced: same array length, same keys, or a scalar. */
  predicate SameTop(a: Json, b: Json) {
    match a
    case JArr(items) => b.JArr? && |b.items| == |items|
    case JObj(entries) => b.JObj? && Keys(b.entries) == Keys(entries)
    case _ => !b.JArr? && !b.JObj?
  }

  /**
   * `b` has the outline of `a`: every array keeps its length, every object
   * keeps its keys in order, and anything else is left exactly as it was,
   * except under a sensitive key, where only the top level is kept.
   */
  predicate Outline(a: Json, b: Json)
    decreases a
  {
    match a
    case JArr(items) =>
      b.JArr? && |b.items| == |items| && forall i :: 0 <= i < |items| ==> Outline(items[i], b.items[i])
    case JObj(entries) =>
      && b.JObj? && Keys(b.entries) == Keys(entries)
      && forall i :: 0 <= i < |entries| ==>
           if ShouldRedactKey(entries[i].key) then SameTop(entries[i].value, b.entries[i].value)
           else Outline(entries[i].value, b.entries[i].value)
    case _ => b == a
  }

  /** `deepRedact` keeps every key, every array length and every value not under a sensitive key. */
  lemma {:induction false} DeepRedactedOutline(v: Json)
    ensures Outline(v, DeepRedacted(v))
    decreases v
  {
    var r := DeepRedacted(v);
    match v
    case JArr(items) =>
      forall i | 0 <= i < |items| ensures Outline(items[i], r.items[i]) {
        DeepRedactedOutline(items[i]);
      }
    case JObj(entries) =>
      forall i | 0 <= i < |entries|
        ensures if ShouldRedactKey(entries[i].key) then SameTop(entries[i].value, r.entries[i].value)
                else Outline(entries[i].value, r.entries[i].value)
      {
        if !ShouldRedactKey(entries[i].key) {
          DeepRedactedOutline(entries[i].value);
        }
      }
      assert Keys(r.entries) == Keys(entries);
    case _ =>
  }

  /** No object anywhere in `v` has a sensitive key. */
  predicate NoSensitiveKeys(v: Json)
    decreases v
  {
    match v
    case JArr(items) => forall i :: 0 <= i < |items| ==> NoSensitiveKeys(items[i])
    case JObj(entries) =>
      forall i :: 0 <= i < |entries| ==> !ShouldRedactKey(entries[i].key) && NoSensitiveKeys(entries[i].value)
    case _ => true
  }

  /** Only values under sensitive keys change: a value without one comes back unchanged. */
  lemma {:induction false} NoSensitiveKeysUnchanged(v: Json)
    requires NoSensitiveKeys(v)
    ensures DeepRedacted(v) == v
    decreases v
  {
    match v
    case JArr(items) =>
      forall i | 0 <= i < |items| ensures DeepRedacted(items[i]) == items[i] {
        NoSensitiveKeysUnchanged(items[i]);
      }
      assert DeepRedacted(v).items == items;
    case JObj(entries) =>
      forall i | 0 <= i < |entries| ensures DeepRedacted(v).entries[i] == entries[i] {
        NoSensitiveKeysUnchanged(entries[i].value);
      }
      assert DeepRedacted(v).entries == entries;
    case _ =>
  }

  /** Every value under a sensitive key, at any depth, is in masked form. */
  predicate Clean(v: Json)
    decreases v
  {
    match v
    case JArr(items) => forall i :: 0 <= i < |items| ==> Clean(items[i])
    case JObj(entries) =>
      forall i :: 0 <= i < |entries| ==>
        if ShouldRedactKey(entries[i].key) then Masked(entries[i].value) else Clean(entries[i].value)
    case _ => true
  }

  /** After `deepRedact` no secret is left under a sensitive key. */
  lemma {:induction false} DeepRedactedClean(v: Json)
    ensures Clean(DeepRedacted(v))
    decreases v
  {
    var r := DeepRedacted(v);
    match v
    case JArr(items) =>
      forall i | 0 <= i < |items| ensures Clean(r.items[i]) {
        DeepRedactedClean(items[i]);
      }
    case JObj(entries) =>
      forall i | 0 <= i < |entries|
        ensures if ShouldRedactKey(r.entries[i].key) then Masked(r.entries[i].value) else Clean(r.entries[i].value)
      {
        if !ShouldRedactKey(entries[i].key) {
          DeepRedactedClean(entries[i].value);
        }
      }
    case _ =>
  }

  /** A value with nothing left to hide is its own redaction. */
  lemma {:induction false} CleanFixed(v: Json)
    requires Clean(v)
    ensures DeepRedacted(v) == v
    decreases v
  {
    match v
    case JArr(items) =>
      forall i | 0 <= i < |items| ensures DeepRedacted(items[i]) == items[i] {
        CleanFixed(items[i]);
      }
      assert DeepRedacted(v).items == items;
    case JObj(entries) =>
      forall i | 0 <= i < |entries| ensures DeepRedacted(v).entries[i] == entries[i] {
        if ShouldRedactKey(entries[i].key) {
          MaskedFixed(entries[i].value);
        } else {
          CleanFixed(entries[i].value);
        }
      }
      assert DeepRedacted(v).entries == entries;
    case _ =>
  }

  /** `deepRedact` is idempotent. */
  lemma DeepRedactedIdempotent(v: Json)
    ensures DeepRedacted(DeepRedacted(v)) == DeepRedacted(v)
  {
    DeepRedactedClean(v);
    CleanFixed(DeepRedacted(v));
  }

  /**
   * `deepRedact(obj)`, building each new array and object in a loop. An
   * array value inside an object is mapped with `deepRedact` exactly as
   * `deepRedact` maps a top-level array, so both branches call this method.
   */
  method DeepRedact(v: Json) returns (r: Json)
    ensures r == DeepRedacted(v)
    decreases v
  {
    if IsNullish(v) {
      return v;
    }
    match v {
      case JArr(items) =>
        var out: seq<Json> := [];
        var i := 0;
        while i < |items|
          invariant 0 <= i <= |items|
          invariant |out| == i && forall j :: 0 <= j < i ==> out[j] == DeepRedacted(items[j])
        {
          var x := DeepRedact(items[i]);
          out := out + [x];
          i := i + 1;
        }
        r := JArr(out);
        assert r.items == DeepRedacted(v).items;
      case JObj(entries) =>
        var out: seq<Entry> := [];
        var i := 0;
        while i < |entries|
          invariant 0 <= i <= |entries|
          invariant |out| == i
          invariant forall j :: 0 <= j < i ==> out[j] == DeepRedacted(v).entries[j]
        {
          var k := entries[i].key;
          var x: Json;
          if ShouldRedactKey(k) {
            x := RedactValue(entries[i].value);
          } else if entries[i].value.JArr? || entries[i].value.JObj? {
            x := DeepRedact(entries[i].value);
          } else {
            x := entries[i].value;
          }
          out := out + [Entry(k, x)];
          i := i + 1;
        }
        r := JObj(out);
        assert r.entries == DeepRedacted(v).entries;
      case _ =>
        r := v;
    }
  }

  // ---------------------------------------------------------------------
  // sanitizeHeaders
  // ---------------------------------------------------------------------

  /** `SENSITIVE_HEADER_KEYS.has(k.toLowerCase())`. */
  predicate SensitiveHeader(name: string) {
    Lower(name) in {"authorization", "cookie", "set-cookie", "x-api-key", "x-auth-token"}
  }

  /** The headers as logged: the same names in the same order, the five sensitive ones masked. */
  function Sanitized(headers: seq<Entry>): (r: seq<Entry>)
    ensures Keys(r) == Keys(headers)
    ensures forall i :: 0 <= i < |headers| ==>
      r[i].value == if SensitiveHeader(headers[i].key) then Mask else headers[i].value
  {
    if headers == [] then []
    else
      [Entry(headers[0].key, if SensitiveHeader(headers[0].key) then Mask else headers[0].value)]
        + Sanitized(headers[1..])
  }

  /** Sanitising logged headers again changes nothing, and no sensitive header keeps its value. */
  lemma SanitizedIdempotent(headers: seq<Entry>)
    ensures Sanitized(Sanitized(headers)) == Sanitized(headers)
    ensures forall e :: e in Sanitized(headers) && SensitiveHeader(e.key) ==> e.value == Mask
  {
    var r := Sanitized(headers);
    var q := Sanitized(r);
    forall i | 0 <= i < |r| ensures q[i] == r[i] {
      assert Keys(q)[i] == Keys(r)[i];
      assert Keys(r)[i] == Keys(headers)[i];
    }
    forall e | e in r && SensitiveHeader(e.key) ensures e.value == Mask {
      var i :| 0 <= i < |r| && r[i] == e;
      assert Keys(r)[i] == Keys(headers)[i];
    }
  }

  /** Which headers count as sensitive does not depend on letter case. */
  lemma SensitiveHeaderCaseless(name: string)
    ensures SensitiveHeader(name) <==> SensitiveHeader(Lower(name))
  {
    assert Lower(Lower(name)) == Lower(name);
  }

  /** `sanitizeHeaders(headers ?? {})`, one entry at a time. */
  method SanitizeHeaders(headers: Option<seq<Entry>>) returns (out: seq<Entry>)
    ensures out == Sanitized(if headers.Some? then headers.value else [])
  {
    var hs := if headers.Some? then headers.value else [];
    out := [];
    var i := 0;
    while i < |hs|
      invariant 0 <= i <= |hs|
      invariant out == Sanitized(hs[..i])
    {
      var k := hs[i].key;
      var e := Entry(k, if SensitiveHeader(k) then Mask else hs[i].value);
      SanitizedPrefix(hs, i);
      out := out + [e];
      i := i + 1;
    }
    assert hs[..i] == hs;
  }

  /** One more header of the prefix sanitised. */
  lemma SanitizedPrefix(hs: seq<Entry>, i: nat)
    requires i < |hs|
    ensures Sanitized(hs[..i + 1]) == Sanitized(hs[..i]) + [Entry(hs[i].key, if SensitiveHeader(hs[i].key) then Mask else hs[i].value)]
  {
    assert hs[..i + 1] == hs[..i] + [hs[i]];
    SanitizedSnoc(hs[..i], hs[i]);
  }

  lemma {:induction false} SanitizedSnoc(headers: seq<Entry>, h: Entry)
    ensures Sanitized(headers + [h]) == Sanitized(headers) + [Entry(h.key, if SensitiveHeader(h.key) then Mask else h.value)]
  {
    if headers != [] {
      var e := Entry(headers[0].key, if SensitiveHeader(headers[0].key) then Mask else headers[0].value);
      calc {
        Sanitized(headers + [h]);
        { assert (headers + [h])[0] == headers[0] && (headers + [h])[1..] == headers[1..] + [h]; }
        [e] + Sanitized(headers[1..] + [h]);
        { SanitizedSnoc(headers[1..], h); }
        [e] + (Sanitized(headers[1..]) + [Entry(h.key, if SensitiveHeader(h.key) then Mask else h.value)]);
      }
    }
  }

  // ---------------------------------------------------------------------
  // Body and response previews
  // ---------------------------------------------------------------------

  /** `String(x ?? '').toLowerCase()` of an optional header value. */
  function HeaderText(h: Option<string>): string {
    if h.Some? then Lower(h.value) else ""
  }

  /** The body is falsy, or an object or array with no own keys. */
  predicate NothingToLog(body: Json) {
    !Truthy(body) || (body.JObj? && body.entries == []) || (body.JArr? && body.items == [])
  }

  /**
   * `safeBodyPreview(req)`. `byteLength(x)` stands for
   * `Buffer.byteLength(JSON.stringify(x))`, `None` when serialising throws.
   */
  function SafeBodyPreview(contentType: Option<string>, body: Json, byteLength: Json -> Option<nat>): (r: Json)
    ensures var ct := HeaderText(contentType);
      Contains(ct, "multipart/form-data") || Contains(ct, "octet-stream") ==> r == JStr(BinaryOmitted)
    ensures var ct := HeaderText(contentType);
      !Contains(ct, "multipart/form-data") && !Contains(ct, "octet-stream") ==>
        if NothingToLog(body) then r == JUndefined
        else match byteLength(DeepRedacted(body))
          case None => r == JStr(BodyUnserializable)
          case Some(n) => r == if n > MaxBodyLogBytes then JStr(BodyTooLarge) else DeepRedacted(body)
  {
    var ct := HeaderText(contentType);
    if Contains(ct, "multipart/form-data") || Contains(ct, "octet-stream") then JStr(BinaryOmitted)
    else if NothingToLog(body) then JUndefined
    else
      var redacted := DeepRedacted(body);
      match byteLength(redacted)
      case None => JStr(BodyUnserializable)
      case Some(n) => if n > MaxBodyLogBytes then JStr(BodyTooLarge) else redacted
  }

  /** Whatever the serialiser answers, a logged body never shows a value under a sensitive key. */
  lemma BodyPreviewClean(contentType: Option<string>, body: Json, byteLength: Json -> Option<nat>)
    ensures Clean(SafeBodyPreview(contentType, body, byteLength))
  {
    DeepRedactedClean(body);
  }

  /** `isTextLikeContentType(ct)`. */
  predicate IsTextLike(ct: string) {
    ct != "" && (Contains(Lower(ct), "application/json") || StartsWith(Lower(ct), "text/"))
  }

  /** A preview of at most 1024 characters, with the ellipsis after a cut. */
  function Truncated(s: string): (r: string)
    ensures |s| <= MaxPreviewChars ==> r == s
    ensures |s| > MaxPreviewChars ==> |r| == MaxPreviewChars + 1 && r[..MaxPreviewChars] == s[..MaxPreviewChars]
    ensures |s| > MaxPreviewChars ==> r[MaxPreviewChars..] == Ellipsis
  {
    if |s| > MaxPreviewChars then s[..MaxPreviewChars] + Ellipsis else s
  }

  /** The cut as the source file spells it, with the three mis-decoded characters in place of the ellipsis. */
  function TruncatedAsWritten(s: string): (r: string)
    ensures |s| <= MaxPreviewChars ==> r == s
    ensures |s| > MaxPreviewChars ==> |r| == MaxPreviewChars + 3 && r[..MaxPreviewChars] == s[..MaxPreviewChars]
    ensures |s| > MaxPreviewChars ==> r[MaxPreviewChars..] == Mojibake
  {
    if |s| > MaxPreviewChars then s[..MaxPreviewChars] + Mojibake else s
  }

  /** Any preview longer than 1024 characters ends in three stray characters: two more than the one intended. */
  lemma MojibakeSuffix(s: string)
    requires |s| > MaxPreviewChars
    ensures |TruncatedAsWritten(s)| == |Truncated(s)| + 2
    ensures TruncatedAsWritten(s) != Truncated(s)
  {
    assert TruncatedAsWritten(s)[MaxPreviewChars] != Truncated(s)[MaxPreviewChars];
  }

  /**
   * `safeResponsePreview(data, res)`. `stringify(x)` stands for
   * `JSON.stringify(x)`, `None` when it throws. The cut uses the ellipsis.
   */
  function SafeResponsePreview(data: Json, contentType: Option<string>, stringify: Json -> Option<string>): (r: string)
    ensures !IsTextLike(if contentType.Some? then contentType.value else "") ==> r == NonTextOmitted
    ensures IsTextLike(if contentType.Some? then contentType.value else "") && IsNullish(data) ==> r == ""
    ensures IsTextLike(if contentType.Some? then contentType.value else "") && data.JStr? ==> r == Truncated(data.s)
    ensures |r| <= MaxPreviewChars + 1
  {
    var ct := if contentType.Some? then contentType.value else "";
    if !IsTextLike(ct) then NonTextOmitted
    else if IsNullish(data) then ""
    else
      var redacted := DeepRedacted(data);
      var s := if redacted.JStr? then Some(redacted.s) else stringify(redacted);
      match s
      case None => ResponseUnserializable
      case Some(text) => Truncated(text)
  }

  // ---------------------------------------------------------------------
  // Which requests are logged
  // ---------------------------------------------------------------------

  /** `req.originalUrl || req.url || ''`. */
  function RequestUrl(originalUrl: Option<string>, url: Option<string>): (r: string)
    ensures originalUrl.Some? && originalUrl.value != "" ==> r == originalUrl.value
    ensures (originalUrl.None? || originalUrl.value == "") && url.Some? ==> r == url.value
    ensures (originalUrl.None? || originalUrl.value == "") && url.None? ==> r == ""
  {
    if originalUrl.Some? && originalUrl.value != "" then originalUrl.value
    else if url.Some? then url.value
    else ""
  }

  /** `/^\/health(?:\/|$)/i`. */
  predicate HealthPath(url: string) {
    var l := Lower(url);
    StartsWith(l, "/health") && (|l| == 7 || l[7] == '/')
  }

  /** `/^\/metrics$/i`. */
  predicate MetricsPath(url: string) {
    Lower(url) == "/metrics"
  }

  /** OPTIONS requests and the health and metrics endpoints pass straight through, unlogged. */
  predicate Skipped(httpMethod: string, url: string) {
    httpMethod == "OPTIONS" || HealthPath(url) || MetricsPath(url)
  }

  /**
   * Exactly which health paths are skipped: `/health` itself and anything
   * below `/health/`, in any letter case, but not `/healthz` or `/health-check`.
   */
  lemma HealthPathIff(url: string)
    ensures HealthPath(url) <==> (Lower(url) == "/health" || StartsWith(Lower(url), "/health/"))
  {
    var l := Lower(url);
    if |l| > 7 && l[..7] == "/health" && l[7] == '/' {
      assert l[..8] == "/health/";
    }
    if StartsWith(l, "/health/") {
      assert l[..7] == l[..8][..7];
    }
  }

  // ---------------------------------------------------------------------
  // Correlation id and log level
  // ---------------------------------------------------------------------

  /**
   * `existingId = headers['x-request-id'] || headers['x-correlation-id'] || req.id`,
   * kept only if it is a string, else `generated` (the `randomUUID()` result).
   */
  function CorrelationId(requestId: Json, correlationHeader: Json, reqId: Json, generated: string): (r: string)
    ensures Truthy(requestId) ==> r == if requestId.JStr? then requestId.s else generated
    ensures !Truthy(requestId) && Truthy(correlationHeader) ==>
      r == if correlationHeader.JStr? then correlationHeader.s else generated
    ensures !Truthy(requestId) && !Truthy(correlationHeader) ==>
      r == if reqId.JStr? && reqId.s != "" then reqId.s else generated
    ensures generated != "" ==> r != ""
  {
    var existing := if Truthy(requestId) then requestId else if Truthy(correlationHeader) then correlationHeader else reqId;
    if existing.JStr? && existing.s != "" then existing.s else generated
  }

  datatype Level = LogLevel | WarnLevel | ErrorLevel

  /** A response is logged as an error from 500 on, as a warning from 400 on, else as a plain log line. */
  function ResponseLevel(status: int): (l: Level)
    ensures l == ErrorLevel <==> status >= 500
    ensures l == WarnLevel <==> 400 <= status < 500
  {
    if status >= 500 then ErrorLevel else if status >= 400 then WarnLevel else LogLevel
  }

  /**
   * The status logged for an error: `err.status` when it is a non-zero
   * number, else `err.statusCode` when it is, else 500.
   */
  function ErrorStatus(err: Json): (s: int)
    ensures s != 0
    ensures err.JObj? && Get(err.entries, "status").JNum? && Get(err.entries, "status").n != 0 ==>
      s == Get(err.entries, "status").n
    ensures err.JObj? && !(Get(err.entries, "status").JNum? && Get(err.entries, "status").n != 0)
              && Get(err.entries, "statusCode").JNum? && Get(err.entries, "statusCode").n != 0 ==>
      s == Get(err.entries, "statusCode").n
    ensures err.JObj? && !(Get(err.entries, "status").JNum? && Get(err.entries, "status").n != 0)
              && !(Get(err.entries, "statusCode").JNum? && Get(err.entries, "statusCode").n != 0) ==>
      s == 500
    ensures !err.JObj? ==> s == 500
  {
    if !err.JObj? then 500
    else
      var status := Get(err.entries, "status");
      var code := Get(err.entries, "statusCode");
      if status.JNum? && status.n != 0 then status.n
      else if code.JNum? && code.n != 0 then code.n
      else 500
  }
}
