// src/utils/SyncManager.js: the pure helpers (base64url, JWT payload,
// backup file name, token validity and the token record) and the
// bookkeeping of the Drive sync: status listeners and the single pending
// push slot.
//
// The network (`fetch`), OAuth redirects, PKCE hashing, local storage and
// real timers are not modelled: their outcomes are parameters.
module Sync {
  import opened Wrappers
  import opened JsValues
  import Text
  import Seqs

  // ---------------------------------------------------------------------
  // base64url

  predicate IsByte(b: int)
  {
    0 <= b < 256
  }

  /** The standard base64 alphabet of section 4 of RFC 4648. */
  function Digit(n: int): (c: char)
    requires 0 <= n < 64
  {
    if n < 26 then ('A' as int + n) as char
    else if n < 52 then ('a' as int + n - 26) as char
    else if n < 62 then ('0' as int + n - 52) as char
    else if n == 62 then '+'
    else '/'
  }

  /** A character of the base64 alphabet: never `=`, `-` or `_`. */
  predicate IsDigit64(c: char)
  {
    ('A' <= c <= 'Z') || ('a' <= c <= 'z') || ('0' <= c <= '9') || c == '+' || c == '/'
  }

  lemma DigitInAlphabet(n: int)
    requires 0 <= n < 64
    ensures IsDigit64(Digit(n))
  {
  }

  /** Padding characters `btoa` appends for `n` bytes. */
  function Pad(n: nat): nat
  {
    (3 - n % 3) % 3
  }

  /** A last group of one, two or three bytes gets two, one or no `=`. */
  lemma PadOfGroup(n: nat)
    requires 1 <= n <= 3
    ensures Pad(n) == 3 - n
  {
  }

  /** Three bytes more add one group and keep the padding. */
  lemma PadStep(n: nat)
    requires n > 3
    ensures Pad(n) == Pad(n - 3)
    ensures (n + 2) / 3 == (n - 3 + 2) / 3 + 1
  {
  }

  /** One group of up to three bytes as four characters, `=` standing for the missing bytes. */
  function Quad(bytes: seq<int>): (r: string)
    requires 1 <= |bytes| <= 3
    requires forall i :: 0 <= i < |bytes| ==> IsByte(bytes[i])
    ensures |r| == 4
    ensures forall i :: 0 <= i < 4 ==> (r[i] == '=' <==> i >= 4 - Pad(|bytes|))
    ensures forall i :: 0 <= i < 4 ==> r[i] == '=' || IsDigit64(r[i])
  {
    var b0 := bytes[0];
    var b1 := if |bytes| > 1 then bytes[1] else 0;
    var b2 := if |bytes| > 2 then bytes[2] else 0;
    assert IsByte(b0) && IsByte(b1) && IsByte(b2);
    PadOfGroup(|bytes|);
    DigitInAlphabet(b0 / 4);
    DigitInAlphabet(b0 % 4 * 16 + b1 / 16);
    DigitInAlphabet(b1 % 16 * 4 + b2 / 64);
    DigitInAlphabet(b2 % 64);
    [Digit(b0 / 4), Digit(b0 % 4 * 16 + b1 / 16),
     if |bytes| > 1 then Digit(b1 % 16 * 4 + b2 / 64) else '=',
     if |bytes| > 2 then Digit(b2 % 64) else '=']
  }

  /** Four digits before a padded text keep its padding at the end. */
  lemma PrefixKeepsPadding(head: string, rest: string, k: nat)
    requires |head| == 4 && k <= |rest|
    requires forall i :: 0 <= i < 4 ==> IsDigit64(head[i])
    requires forall i :: 0 <= i < |rest| ==> (rest[i] == '=' <==> i >= |rest| - k)
    requires forall i :: 0 <= i < |rest| ==> rest[i] == '=' || IsDigit64(rest[i])
    ensures forall i :: 0 <= i < |head + rest| ==> ((head + rest)[i] == '=' <==> i >= |head + rest| - k)
    ensures forall i :: 0 <= i < |head + rest| ==> (head + rest)[i] == '=' || IsDigit64((head + rest)[i])
  {
    forall i | 0 <= i < |head + rest|
      ensures ((head + rest)[i] == '=' <==> i >= |head + rest| - k)
      ensures (head + rest)[i] == '=' || IsDigit64((head + rest)[i])
    {
      if i >= 4 {
        assert (head + rest)[i] == rest[i - 4];
      }
    }
  }

  /** A full group before the text of the remaining bytes gives the text of all `n` bytes. */
  lemma GroupThenRest(head: string, rest: string, n: nat)
    requires n > 3 && |head| == 4 && |rest| == 4 * ((n - 3 + 2) / 3)
    requires forall i :: 0 <= i < 4 ==> (head[i] == '=' <==> i >= 4 - Pad(3))
    requires forall i :: 0 <= i < 4 ==> head[i] == '=' || IsDigit64(head[i])
    requires forall i :: 0 <= i < |rest| ==> (rest[i] == '=' <==> i >= |rest| - Pad(n - 3))
    requires forall i :: 0 <= i < |rest| ==> rest[i] == '=' || IsDigit64(rest[i])
    ensures |head + rest| == 4 * ((n + 2) / 3)
    ensures forall i :: 0 <= i < |head + rest| ==> ((head + rest)[i] == '=' <==> i >= |head + rest| - Pad(n))
    ensures forall i :: 0 <= i < |head + rest| ==> (head + rest)[i] == '=' || IsDigit64((head + rest)[i])
  {
    PadStep(n);
    assert Pad(3) == 0;
    PrefixKeepsPadding(head, rest, Pad(n));
  }

  /** `btoa(String.fromCharCode(...bytes))`: three bytes to four digits, `=` padding the last group. */
  function Base64(bytes: seq<int>): (r: string)
    requires forall i :: 0 <= i < |bytes| ==> IsByte(bytes[i])
    ensures |r| == 4 * ((|bytes| + 2) / 3)
    ensures forall i :: 0 <= i < |r| ==> (r[i] == '=' <==> i >= |r| - Pad(|bytes|))
    ensures forall i :: 0 <= i < |r| ==> r[i] == '=' || IsDigit64(r[i])
  {
    if |bytes| == 0 then []
    else if |bytes| <= 3 then Quad(bytes)
    else
      var head := Quad(bytes[..3]);
      var rest := Base64(bytes[3..]);
      GroupThenRest(head, rest, |bytes|);
      head + rest
  }

  /** `.replace(/\+/g, '-').replace(/\//g, '_')`. */
  function ToUrlAlphabet(s: string): (r: string)
    ensures |r| == |s|
    ensures forall i :: 0 <= i < |s| ==>
              r[i] == (if s[i] == '+' then '-' else if s[i] == '/' then '_' else s[i])
  {
    seq(|s|, i requires 0 <= i < |s| => if s[i] == '+' then '-' else if s[i] == '/' then '_' else s[i])
  }

  /** `.replace(/-/g, '+').replace(/_/g, '/')`, as `parseJwt` undoes the mapping. */
  function FromUrlAlphabet(s: string): (r: string)
    ensures |r| == |s|
    ensures forall i :: 0 <= i < |s| ==>
              r[i] == (if s[i] == '-' then '+' else if s[i] == '_' then '/' else s[i])
  {
    seq(|s|, i requires 0 <= i < |s| => if s[i] == '-' then '+' else if s[i] == '_' then '/' else s[i])
  }

  /** `.replace(/=+$/, '')`: every trailing `=` removed. */
  function StripPadding(s: string): (r: string)
    ensures |r| <= |s| && r == s[..|r|]
    ensures r == [] || r[|r| - 1] != '='
    ensures forall i :: |r| <= i < |s| ==> s[i] == '='
  {
    if |s| > 0 && s[|s| - 1] == '=' then
      var r := StripPadding(s[..|s| - 1]);
      assert forall i :: |r| <= i < |s| - 1 ==> s[i] == s[..|s| - 1][i];
      r
    else s
  }

  /** A text whose `=` signs are exactly its last `k` characters loses exactly those. */
  lemma {:induction false} StripExactPadding(s: string, k: nat)
    requires k <= |s|
    requires forall i :: 0 <= i < |s| ==> (s[i] == '=' <==> i >= |s| - k)
    ensures StripPadding(s) == s[..|s| - k]
    decreases k
  {
    if k == 0 {
      assert s[..|s|] == s;
    } else {
      var t := s[..|s| - 1];
      assert forall i :: 0 <= i < |t| ==> t[i] == s[i];
      StripExactPadding(t, k - 1);
      assert t[..|t| - (k - 1)] == s[..|s| - k];
    }
  }

  /** `4 * ceil(n / 3)` digits less the padding is `ceil(4n / 3)`. */
  lemma UnpaddedLength(n: nat)
    ensures Pad(n) <= 2 && Pad(n) <= 4 * ((n + 2) / 3)
    ensures 4 * ((n + 2) / 3) - Pad(n) == (4 * n + 2) / 3
  {
    var q := n / 3;
    assert n == 3 * q + n % 3;
  }

  /** `base64UrlEncode(buffer)`. */
  function Base64UrlEncode(bytes: seq<int>): (r: string)
    requires forall i :: 0 <= i < |bytes| ==> IsByte(bytes[i])
  {
    StripPadding(ToUrlAlphabet(Base64(bytes)))
  }

  /** The url-safe text is the mapped standard text without its padding. */
  lemma UrlTextUnpadded(bytes: seq<int>)
    requires forall i :: 0 <= i < |bytes| ==> IsByte(bytes[i])
    ensures var b := Base64(bytes);
            Base64UrlEncode(bytes) == ToUrlAlphabet(b)[..|b| - Pad(|bytes|)]
  {
    var b := Base64(bytes);
    var u := ToUrlAlphabet(b);
    var k := Pad(|bytes|);
    assert forall i :: 0 <= i < |u| ==> (u[i] == '=' <==> i >= |u| - k);
    StripExactPadding(u, k);
  }

  /**
   * The url-safe text has no `+`, `/` or `=` at all, has the unpadded
   * length `ceil(4n/3)`, and mapping its alphabet back gives the standard
   * encoding without its padding: what `parseJwt` hands to `atob`.
   */
  lemma Base64UrlEncodeSpec(bytes: seq<int>)
    requires forall i :: 0 <= i < |bytes| ==> IsByte(bytes[i])
    ensures var r := Base64UrlEncode(bytes);
            && (forall i :: 0 <= i < |r| ==> r[i] != '+' && r[i] != '/' && r[i] != '=')
            && |r| == (4 * |bytes| + 2) / 3
            && FromUrlAlphabet(r) + Text.Take("==", Pad(|bytes|)) == Base64(bytes)
  {
    UrlTextUnpadded(bytes);
    UnpaddedLength(|bytes|);
    UrlTextAlphabet(bytes);
    UrlTextRoundTrip(bytes);
  }

  lemma UrlTextAlphabet(bytes: seq<int>)
    requires forall i :: 0 <= i < |bytes| ==> IsByte(bytes[i])
    ensures var r := Base64UrlEncode(bytes);
            forall i :: 0 <= i < |r| ==> r[i] != '+' && r[i] != '/' && r[i] != '='
  {
    var b := Base64(bytes);
    UrlTextUnpadded(bytes);
    var r := Base64UrlEncode(bytes);
    forall i | 0 <= i < |r|
      ensures r[i] != '+' && r[i] != '/' && r[i] != '='
    {
      assert r[i] == ToUrlAlphabet(b)[i];
      assert b[i] != '=';
    }
  }

  lemma UrlTextRoundTrip(bytes: seq<int>)
    requires forall i :: 0 <= i < |bytes| ==> IsByte(bytes[i])
    ensures FromUrlAlphabet(Base64UrlEncode(bytes)) + Text.Take("==", Pad(|bytes|)) == Base64(bytes)
  {
    UnpaddedLength(|bytes|);
    UrlTextUnpadded(bytes);
    UnmapUnpadded(Base64(bytes), Pad(|bytes|), Base64UrlEncode(bytes));
  }

  /** Mapping a padded standard text to the url alphabet, cutting the padding, and mapping back loses only the padding. */
  lemma UnmapUnpadded(b: string, k: nat, r: string)
    requires k <= 2 && k <= |b|
    requires forall i :: 0 <= i < |b| ==> (b[i] == '=' <==> i >= |b| - k)
    requires forall i :: 0 <= i < |b| ==> b[i] == '=' || IsDigit64(b[i])
    requires r == ToUrlAlphabet(b)[..|b| - k]
    ensures FromUrlAlphabet(r) + Text.Take("==", k) == b
  {
    var pad := Text.Take("==", k);
    assert |pad| == k && forall i :: 0 <= i < k ==> pad[i] == '=';
    var t := FromUrlAlphabet(r) + pad;
    forall i | 0 <= i < |b|
      ensures t[i] == b[i]
    {
      if i < |r| {
        assert r[i] == ToUrlAlphabet(b)[i];
      } else {
        assert t[i] == pad[i - |r|];
      }
    }
  }

  // ---------------------------------------------------------------------
  // JWT payload and account id

  /**
   * `parseJwt(token)`. `decode` stands for `atob`, the UTF-8 decoding and
   * `JSON.parse`, giving `None` where any of them throws.
   */
  function ParseJwt(token: string, decode: string -> Option<Js>): (r: Option<Js>)
    ensures var parts := Text.Split(token, '.');
            r.Some? ==> |parts| >= 2 && parts[1] != [] && r == decode(FromUrlAlphabet(parts[1]))
  {
    var parts := Text.Split(token, '.');
    if |parts| < 2 || parts[1] == [] then None
    else decode(FromUrlAlphabet(parts[1]))
  }

  /** A token with no `.` has no payload; neither has one whose second part is empty. */
  lemma ParseJwtNeedsPayload(token: string, decode: string -> Option<Js>)
    ensures '.' !in token ==> ParseJwt(token, decode).None?
    ensures var parts := Text.Split(token, '.');
            |parts| >= 2 && parts[1] != [] ==> ParseJwt(token, decode) == decode(FromUrlAlphabet(parts[1]))
  {
    if '.' !in token {
      assert token[..Text.IndexOf(token, '.')] == token;
    }
  }

  /**
   * `extractAccountIdFromToken`: the `sub` claim of the id token's payload
   * when it is a non-empty string.
   */
  function AccountIdOf(idToken: Js, decode: string -> Option<Js>): (r: Option<string>)
    ensures r.Some? ==> r.value != [] && idToken.Str? && idToken.s != []
    ensures r.Some? ==> ParseJwt(idToken.s, decode).Some? && Get(ParseJwt(idToken.s, decode).value, "sub") == Str(r.value)
  {
    if !idToken.Str? || idToken.s == [] then None
    else
      match ParseJwt(idToken.s, decode)
      case None => None
      case Some(payload) =>
        var sub := Get(payload, "sub");
        if sub.Str? && sub.s != [] then Some(sub.s) else None
  }

  // ---------------------------------------------------------------------
  // Backup file name

  const JsonSuffix := ".json"

  /** `name` ends in `.json` in any letter case (`/\.json$/i`). */
  predicate EndsWithJson(name: string)
  {
    |name| >= 5 && Text.Lower(name[|name| - 5..]) == JsonSuffix
  }

  /** `backupFileName.replace(/\.json$/i, '')`. */
  function BaseName(name: string): (r: string)
    ensures EndsWithJson(name) ==> r == name[..|name| - 5]
    ensures !EndsWithJson(name) ==> r == name
  {
    if EndsWithJson(name) then name[..|name| - 5] else name
  }

  /** `this.accountId || 'default'`. */
  function Suffix(accountId: Option<string>): string
  {
    if accountId.Some? && accountId.value != [] then accountId.value else "default"
  }

  /** `getAccountBackupFileName()`. */
  function BackupFileName(name: string, accountId: Option<string>): (r: string)
  {
    BaseName(name) + "-" + Suffix(accountId) + JsonSuffix
  }

  /**
   * The file name ends in `-<account>.json` (or `-default.json`); the
   * configured name's own `.json`, in any case, is not repeated; and two
   * accounts with different suffixes get different files.
   */
  lemma BackupFileNameSpec(name: string, ext: string, accountId: Option<string>, other: Option<string>)
    requires |ext| == 5 && Text.Lower(ext) == JsonSuffix
    ensures var r := BackupFileName(name, accountId);
            |r| >= 5 && r[|r| - 5..] == JsonSuffix
    ensures !EndsWithJson(name) ==> BackupFileName(name + ext, accountId) == BackupFileName(name, accountId)
    ensures Suffix(accountId) != Suffix(other) ==> BackupFileName(name, accountId) != BackupFileName(name, other)
  {
    assert (name + ext)[|name + ext| - 5..] == ext;
    assert (name + ext)[..|name + ext| - 5] == name;
    var a := BackupFileName(name, accountId);
    var b := BackupFileName(name, other);
    if a == b {
      var base := BaseName(name);
      var sa, sb := Suffix(accountId), Suffix(other);
      assert |sa| == |sb|;
      assert sa == a[|base| + 1..|base| + 1 + |sa|];
      assert sb == b[|base| + 1..|base| + 1 + |sb|];
    }
  }

  // ---------------------------------------------------------------------
  // Tokens

  /** The stored token record; loaded from storage it may hold any JSON value. */
  datatype Tokens = Tokens(accessToken: Js, refreshToken: Js, idToken: Js, expiresAt: Js)

  /** Milliseconds before expiry from which a token counts as expired. */
  const ExpiryMarginMs := 5000
  const DefaultExpiresInSeconds := 3600

  /** `now < expiresAt - 5000` for a JavaScript number `expiresAt`. */
  predicate BeforeMargin(nowMs: int, expiresAt: Num)
  {
    match expiresAt
    case Finite(v) => nowMs < v - ExpiryMarginMs
    case Infinity(positive) => positive
    case NaN => false
  }

  /**
   * `isAccessTokenValid()`: an access token, an expiry, and more than five
   * seconds left before it.
   */
  predicate IsAccessTokenValid(tokens: Option<Tokens>, nowMs: int)
  {
    && tokens.Some?
    && Truthy(tokens.value.accessToken)
    && Truthy(tokens.value.expiresAt)
    && BeforeMargin(nowMs, ToNumber(tokens.value.expiresAt))
  }

  /**
   * With a numeric expiry, a token is valid exactly until five seconds
   * before it; validity never comes back later.
   */
  lemma AccessTokenValidity(t: Tokens, nowMs: int, later: int)
    requires t.expiresAt.Number? && t.expiresAt.n.Finite? && t.expiresAt.n.v != 0
    requires Truthy(t.accessToken)
    requires nowMs <= later
    ensures IsAccessTokenValid(Some(t), nowMs) <==> nowMs < t.expiresAt.n.v - ExpiryMarginMs
    ensures IsAccessTokenValid(Some(t), later) ==> IsAccessTokenValid(Some(t), nowMs)
  {
  }

  /** `Number(payload.expires_in) || 3600`. */
  function ExpiresIn(payload: Js): (r: Num)
    ensures r != NaN && r != Finite(0)
    ensures Truthy(Number(ToNumber(Get(payload, "expires_in")))) ==> r == ToNumber(Get(payload, "expires_in"))
  {
    var n := ToNumber(Get(payload, "expires_in"));
    if Truthy(Number(n)) then n else Finite(DefaultExpiresInSeconds)
  }

  /** `value || fallback` on the previous record, `this.tokens?.<field>`. */
  function OrPrevious(value: Js, previous: Option<Tokens>, field: Tokens -> Js): (r: Js)
  {
    if Truthy(value) then value
    else if previous.Some? then field(previous.value)
    else Undefined
  }

  function RefreshTokenOf(t: Tokens): Js
  {
    t.refreshToken
  }

  function IdTokenOf(t: Tokens): Js
  {
    t.idToken
  }

  /** The record `requestToken` resolves to for a successful token response. */
  function TokenRecord(payload: Js, previous: Option<Tokens>, nowMs: int): (r: Tokens)
  {
    var expiresIn := ExpiresIn(payload);
    var expiresAt := match expiresIn
      case Finite(v) => Finite(nowMs + v * 1000)
      case _ => expiresIn;
    Tokens(
      Get(payload, "access_token"),
      OrPrevious(Get(payload, "refresh_token"), previous, RefreshTokenOf),
      OrPrevious(Get(payload, "id_token"), previous, IdTokenOf),
      Number(expiresAt))
  }

  /**
   * A response without `expires_in` lasts an hour; a response without a
   * refresh or id token keeps the previous ones; and a fresh record with an
   * access token and at least six seconds to live is valid when issued.
   */
  lemma TokenRecordSpec(payload: Js, previous: Option<Tokens>, nowMs: int)
    ensures var r := TokenRecord(payload, previous, nowMs);
            Get(payload, "expires_in").Undefined? ==> r.expiresAt == Number(Finite(nowMs + 3600 * 1000))
    ensures var r := TokenRecord(payload, previous, nowMs);
            !Truthy(Get(payload, "refresh_token")) && previous.Some? ==> r.refreshToken == previous.value.refreshToken
    ensures var r := TokenRecord(payload, previous, nowMs);
            !Truthy(Get(payload, "id_token")) && previous.Some? ==> r.idToken == previous.value.idToken
    ensures var r := TokenRecord(payload, previous, nowMs);
            var e := ExpiresIn(payload);
            && nowMs >= 0 && Truthy(Get(payload, "access_token"))
            && (e.Infinity? ==> e.positive) && (e.Finite? ==> e.v >= 6) ==>
              IsAccessTokenValid(Some(r), nowMs)
  {
  }

  // ---------------------------------------------------------------------
  // Status

  datatype State = Idle | Authenticating | Connected | Disconnected | Syncing | Error

  /** `getStatus()`. */
  datatype Status = Status(state: State, message: string, lastSyncedAt: Option<string>, isAuthenticated: bool)

  /** `Boolean(this.tokens?.accessToken)`. */
  predicate Authenticated(tokens: Option<Tokens>)
  {
    tokens.Some? && Truthy(tokens.value.accessToken)
  }

  /** One call of a status listener, with the status it was given. */
  datatype Call = Call(listener: nat, status: Status)

  /** `listeners.forEach((listener) => listener(status))`. */
  function Broadcast(listeners: seq<nat>, status: Status): (r: seq<Call>)
    ensures |r| == |listeners|
    ensures forall i :: 0 <= i < |r| ==> r[i] == Call(listeners[i], status)
  {
    seq(|listeners|, i requires 0 <= i < |listeners| => Call(listeners[i], status))
  }

  /** What a push ended in: the upload's `syncedAt` stamp, or a failure anywhere on the way. */
  datatype Outcome = Uploaded(syncedAt: string) | Failed

  const SyncingMessage := "Сохраняю копию в Drive..."
  const SyncedMessage := "Синхронизация выполнена"
  const SyncErrorMessage := "Ошибка синхронизации"

  /**
   * The `SyncManager` object as far as the sync bookkeeping goes: its
   * tokens, status, listeners (by identity, in insertion order), the
   * pending push slot and its timer, the upload in flight and the last
   * copy written to Drive. `calls` records every listener call.
   */
  class SyncManager<S(==)> {
    var tokens: Option<Tokens>
    var status: State
    var statusMessage: string
    var lastSyncedAt: Option<string>
    var listeners: seq<nat>
    var calls: seq<Call>
    var pendingState: Option<S>
    var timerArmed: bool
    var timersStarted: nat
    var uploading: Option<S>
    var remote: Option<S>

    ghost predicate Valid()
      reads this
    {
      forall i, j :: 0 <= i < j < |listeners| ==> listeners[i] != listeners[j]
    }

    constructor()
      ensures Valid()
      ensures tokens.None? && status == Idle && statusMessage == [] && lastSyncedAt.None?
      ensures listeners == [] && calls == [] && pendingState.None? && !timerArmed && timersStarted == 0
      ensures uploading.None? && remote.None?
    {
      tokens := None;
      status := Idle;
      statusMessage := [];
      lastSyncedAt := None;
      listeners := [];
      calls := [];
      pendingState := None;
      timerArmed := false;
      timersStarted := 0;
      uploading := None;
      remote := None;
    }

    function GetStatus(): (r: Status)
      reads this
      ensures r.state == status && r.message == statusMessage && r.lastSyncedAt == lastSyncedAt
      ensures r.isAuthenticated <==> Authenticated(tokens)
    {
      Status(status, statusMessage, lastSyncedAt, Authenticated(tokens))
    }

    /** `setStatus(status, message)`: every listener is told the new status. */
    method SetStatus(next: State, message: string)
      modifies this`status, this`statusMessage, this`calls
      ensures status == next && statusMessage == message
      ensures calls == old(calls) + Broadcast(listeners, GetStatus())
    {
      status := next;
      statusMessage := message;
      calls := calls + Broadcast(listeners, GetStatus());
    }

    /**
     * `onStatusChange(callback)`: a function is registered and called at
     * once with the current status; anything else changes nothing. The
     * result is what the returned unsubscribe function would remove.
     */
    method OnStatusChange(callback: Option<nat>) returns (unsubscribe: Option<nat>)
      requires Valid()
      modifies this`listeners, this`calls
      ensures Valid()
      ensures unsubscribe == callback
      ensures callback.None? ==> listeners == old(listeners) && calls == old(calls)
      ensures callback.Some? ==>
                && (callback.value in old(listeners) ==> listeners == old(listeners))
                && (callback.value !in old(listeners) ==> listeners == old(listeners) + [callback.value])
                && calls == old(calls) + [Call(callback.value, GetStatus())]
    {
      if callback.None? {
        return None;
      }
      if callback.value !in listeners {
        listeners := listeners + [callback.value];
      }
      calls := calls + [Call(callback.value, GetStatus())];
      unsubscribe := callback;
    }

    /**
     * The returned unsubscribe function: `statusListeners.delete(callback)`.
     * A `Set` keeps insertion order, so the other listeners stay in the
     * order they registered.
     */
    method Unsubscribe(callback: nat)
      requires Valid()
      modifies this`listeners
      ensures Valid()
      ensures listeners == Seqs.Filter(old(listeners), l => l != callback)
      ensures callback !in listeners
      ensures forall l :: l in listeners <==> l in old(listeners) && l != callback
    {
      Seqs.FilterDistinct(listeners, l => l != callback);
      forall l ensures l in Seqs.Filter(listeners, l => l != callback) <==> l in listeners && l != callback {
        Seqs.FilterMembership(listeners, l => l != callback, l);
      }
      listeners := Seqs.Filter(listeners, l => l != callback);
    }

    /**
     * `schedulePush(state)`: the slot always takes the newest state; a
     * timer is started only when none is pending, and a pending one is not
     * restarted.
     */
    method SchedulePush(state: S)
      modifies this`pendingState, this`timerArmed, this`timersStarted
      ensures pendingState == Some(state) && timerArmed
      ensures timersStarted == old(timersStarted) + (if old(timerArmed) then 0 else 1)
    {
      pendingState := Some(state);
      if timerArmed {
        return;
      }
      timerArmed := true;
      timersStarted := timersStarted + 1;
    }

    /**
     * The timer fires: `syncTimeout` is cleared and `performPush` starts.
     * With nothing pending it does nothing; otherwise the status turns to
     * syncing and the pending state is the copy being uploaded.
     */
    method TimerFires()
      requires timerArmed && uploading.None?
      modifies this`timerArmed, this`uploading, this`status, this`statusMessage, this`calls
      ensures !timerArmed
      ensures old(pendingState).None? ==>
                uploading.None? && status == old(status) && statusMessage == old(statusMessage) && calls == old(calls)
      ensures old(pendingState).Some? ==>
                && uploading == old(pendingState) && status == Syncing && statusMessage == SyncingMessage
                && calls == old(calls) + Broadcast(listeners, GetStatus())
      ensures pendingState == old(pendingState)
    {
      timerArmed := false;
      if pendingState.None? {
        return;
      }
      uploading := pendingState;
      SetStatus(Syncing, SyncingMessage);
    }

    /**
     * The end of `performPush` as written: on success the copy is on Drive
     * and the status is connected, on failure it is error; either way the
     * `finally` block empties the slot, even when a newer state was
     * scheduled while the upload ran.
     */
    method FinishPushAsWritten(outcome: Outcome)
      requires uploading.Some?
      modifies this`uploading, this`pendingState, this`remote, this`lastSyncedAt, this`status, this`statusMessage, this`calls
      ensures uploading.None? && pendingState.None?
      ensures outcome.Uploaded? ==>
                remote == old(uploading) && lastSyncedAt == Some(outcome.syncedAt)
                && status == Connected && statusMessage == SyncedMessage
      ensures outcome.Failed? ==>
                remote == old(remote) && lastSyncedAt == old(lastSyncedAt)
                && status == Error && statusMessage == SyncErrorMessage
      ensures calls == old(calls) + Broadcast(listeners, GetStatus())
    {
      if outcome.Uploaded? {
        remote := uploading;
        lastSyncedAt := Some(outcome.syncedAt);
        SetStatus(Connected, SyncedMessage);
      } else {
        SetStatus(Error, SyncErrorMessage);
      }
      uploading := None;
      pendingState := None;
    }

    /**
     * The end of `performPush` as intended: the slot is emptied only if it
     * still holds the copy just uploaded; a state scheduled meanwhile stays
     * pending for its own timer.
     */
    method FinishPush(outcome: Outcome)
      requires uploading.Some?
      modifies this`uploading, this`pendingState, this`remote, this`lastSyncedAt, this`status, this`statusMessage, this`calls
      ensures uploading.None?
      ensures pendingState == (if old(pendingState) == old(uploading) then None else old(pendingState))
      ensures outcome.Uploaded? ==>
                remote == old(uploading) && lastSyncedAt == Some(outcome.syncedAt)
                && status == Connected && statusMessage == SyncedMessage
      ensures outcome.Failed? ==>
                remote == old(remote) && lastSyncedAt == old(lastSyncedAt)
                && status == Error && statusMessage == SyncErrorMessage
      ensures calls == old(calls) + Broadcast(listeners, GetStatus())
    {
      if outcome.Uploaded? {
        remote := uploading;
        lastSyncedAt := Some(outcome.syncedAt);
        SetStatus(Connected, SyncedMessage);
      } else {
        SetStatus(Error, SyncErrorMessage);
      }
      if pendingState == uploading {
        pendingState := None;
      }
      uploading := None;
    }
  }

  // ---------------------------------------------------------------------
  // The push slot as values: the race between a push and a newer schedule

  /** The push bookkeeping: the slot, whether its timer is pending, the copy in flight and the copy on Drive. */
  datatype Slot<S> = Slot(pending: Option<S>, armed: bool, uploading: Option<S>, remote: Option<S>)

  function Schedule<S>(s: Slot<S>, state: S): Slot<S>
  {
    s.(pending := Some(state), armed := true)
  }

  function Fire<S>(s: Slot<S>): Slot<S>
  {
    if s.pending.None? then s.(armed := false) else s.(armed := false, uploading := s.pending)
  }

  function SucceedAsWritten<S>(s: Slot<S>): Slot<S>
  {
    s.(pending := None, uploading := None, remote := s.uploading)
  }

  function Succeed<S(==)>(s: Slot<S>): Slot<S>
  {
    s.(pending := if s.pending == s.uploading then None else s.pending, uploading := None, remote := s.uploading)
  }

  /**
   * Every state scheduled is on Drive, in flight, or pending with a timer
   * that will push it: nothing the user changed is forgotten.
   */
  ghost predicate Kept<S>(s: Slot<S>, latest: S)
  {
    || s.remote == Some(latest)
    || (s.pending == Some(latest) && (s.armed || s.uploading == Some(latest)))
  }

  /**
   * The invariant of the intended slot: a pending state is the latest one;
   * an upload runs only while its state is pending; a pending state that is
   * not the one in flight has its timer; an empty slot means Drive is up to
   * date.
   */
  ghost predicate SlotInvariant<S>(s: Slot<S>, latest: S)
  {
    && (s.pending.Some? ==> s.pending == Some(latest))
    && (s.uploading.Some? ==> s.pending.Some?)
    && (s.pending.Some? && s.pending != s.uploading ==> s.armed)
    && (s.pending.None? ==> s.remote == Some(latest))
  }

  /**
   * As written, a state scheduled while an upload runs is lost: after the
   * upload of `first` succeeds and the timer fires, `second` is neither on
   * Drive, nor pending, nor in flight.
   */
  lemma PushLosesNewerState<S>(first: S, second: S)
    requires first != second
    ensures var s0 := Slot(None, false, None, None);
            var s1 := Fire(Schedule(s0, first));
            var s2 := SucceedAsWritten(Schedule(s1, second));
            var s3 := Fire(s2);
            && s3.remote == Some(first) && s3.pending.None? && s3.uploading.None? && !s3.armed
            && !Kept(s3, second)
  {
  }

  /**
   * The intended slot keeps its invariant through a schedule, a timer that
   * fires with no upload running, and a successful upload; the invariant
   * means every scheduled state is kept.
   */
  lemma PushKeepsNewestState<S>(s: Slot<S>, latest: S, next: S)
    requires SlotInvariant(s, latest)
    ensures Kept(s, latest)
    ensures SlotInvariant(Schedule(s, next), next)
    ensures s.armed && s.uploading.None? ==> SlotInvariant(Fire(s), latest)
    ensures s.uploading.Some? ==> SlotInvariant(Succeed(s), latest)
  {
  }

  /** The same sequence as in `PushLosesNewerState`, with the intended end of the push, keeps the newer state. */
  lemma PushKeepsNewerState<S>(first: S, second: S)
    requires first != second
    ensures var s0 := Slot(None, false, None, None);
            var s1 := Fire(Schedule(s0, first));
            var s2 := Succeed(Schedule(s1, second));
            var s3 := Fire(s2);
            && s3.remote == Some(first) && s3.uploading == Some(second) && Kept(s3, second)
  {
  }
}
