/**
 * The JavaScript values the dispatch code inspects: the value found in the
 * position of a device token, the stored token entries (a bare string or a
 * `{token, platform}` object), image URLs, truthiness and `String.prototype.trim`.
 */
module JsValues {

  type Uid = string

  /** A JavaScript value in the position of a device token. `Composite` is any
      object or array; its identity is not tracked. */
  datatype TokenValue = Undefined | Null | Bool(b: bool) | Num(n: int) | Str(s: string) | Composite

  /** ToBoolean(v) is false. */
  predicate Falsy(v: TokenValue) {
    match v
    case Undefined => true
    case Null => true
    case Bool(b) => !b
    case Num(n) => n == 0
    case Str(s) => s == ""
    case Composite => false
  }

  /** `a === b`; two objects are never taken to be the same object. */
  predicate StrictEquals(a: TokenValue, b: TokenValue) {
    a == b && !a.Composite?
  }

  /** One element of a user's stored `messaging.fcmTokens` list. */
  datatype TokenEntry = Plain(s: string) | Record(token: TokenValue, platform: string)

  /** `entry.token`: a string primitive has no `token` property. */
  function TokenProperty(e: TokenEntry): TokenValue {
    match e
    case Plain(_) => Undefined
    case Record(t, _) => t
  }

  /** `typeof entry === 'string' ? entry : entry.token` */
  function Normalize(e: TokenEntry): TokenValue {
    match e
    case Plain(s) => Str(s)
    case Record(t, _) => t
  }

  /** ToBoolean of an entry: objects are truthy, strings unless empty. */
  predicate EntryTruthy(e: TokenEntry) {
    match e
    case Plain(s) => s != ""
    case Record(_, _) => true
  }

  /** An optional image URL: missing (`undefined`), `null`, or a string. */
  datatype Img = Absent | NullImage | Url(s: string)

  /** `image || null` */
  function OrNull(i: Img): (r: Img)
    ensures r.Url? <==> i.Url? && i.s != ""
    ensures r.Url? ==> r == i
    ensures !r.Url? ==> r == NullImage
  {
    match i
    case Url(s) => if s == "" then NullImage else i
    case _ => NullImage
  }

  /** ECMAScript WhiteSpace and LineTerminator code points, the ones `trim` strips. */
  predicate IsJsSpace(c: char) {
    c == '\t' || c == '\n' || c == '\U{000B}' || c == '\U{000C}' || c == '\r' || c == ' '
    || c == '\U{00A0}' || c == '\U{1680}' || ('\U{2000}' <= c <= '\U{200A}')
    || c == '\U{2028}' || c == '\U{2029}' || c == '\U{202F}' || c == '\U{205F}'
    || c == '\U{3000}' || c == '\U{FEFF}'
  }

  /** Every character of `s` is white space (the empty string included). */
  predicate Blank(s: string) {
    forall i :: 0 <= i < |s| ==> IsJsSpace(s[i])
  }

  /** `s` without its leading white space. */
  function TrimStart(s: string): (r: string)
    ensures |r| <= |s| && r == s[|s| - |r|..]
    ensures Blank(s[..|s| - |r|])
    ensures r == [] || !IsJsSpace(r[0])
  {
    if s != [] && IsJsSpace(s[0]) then TrimStart(s[1..]) else s
  }

  /** `s` without its trailing white space. */
  function TrimEnd(s: string): (r: string)
    ensures |r| <= |s| && r == s[..|r|]
    ensures Blank(s[|r|..])
    ensures r == [] || !IsJsSpace(r[|r| - 1])
  {
    if s != [] && IsJsSpace(s[|s| - 1]) then TrimEnd(s[..|s| - 1]) else s
  }

  /** `s.trim()` */
  function Trim(s: string): string {
    TrimEnd(TrimStart(s))
  }

  /** `s.trim() === ''` holds exactly for the blank strings. */
  lemma TrimEmptyIffBlank(s: string)
    ensures Trim(s) == "" <==> Blank(s)
  {
    var t := TrimStart(s);
    assert s == s[..|s| - |t|] + t;
    assert TrimEnd(t) == [] ==> Blank(t) by {
      assert t[0..] == t;
    }
  }
}
