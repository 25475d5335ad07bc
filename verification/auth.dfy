/**
 * The admin token gate of utils/auth.ts: the base64url-to-base64 rewrite
 * and re-padding of a JWS compact token's payload segment (section 5 of
 * RFC 4648, section 7.1 of RFC 7515), and the accept/reject decision on
 * the decoded claims. The signature segment is never looked at.
 */
module Auth {
  import opened Wrappers

  const ADMIN_PREFIX: string := "admin_"
  const ADMIN_ROLE: string := "admin"

  /** The one-character rewrite of `replace(/-/g, "+").replace(/_/g, "/")`. */
  function ToBase64Char(c: char): char {
    if c == '-' then '+' else if c == '_' then '/' else c
  }

  /** The base64url alphabet's two extra characters replaced by the base64 ones. */
  function UrlToBase64(s: string): (t: string)
    ensures |t| == |s|
    ensures forall i :: 0 <= i < |s| && s[i] == '-' ==> t[i] == '+'
    ensures forall i :: 0 <= i < |s| && s[i] == '_' ==> t[i] == '/'
    ensures forall i :: 0 <= i < |s| && s[i] != '-' && s[i] != '_' ==> t[i] == s[i]
    ensures '-' !in t && '_' !in t
  {
    if s == [] then [] else [ToBase64Char(s[0])] + UrlToBase64(s[1..])
  }

  /** The reverse rewrite, from base64 to base64url. */
  function Base64ToUrl(t: string): (s: string)
    ensures |s| == |t|
  {
    if t == [] then [] else [if t[0] == '+' then '-' else if t[0] == '/' then '_' else t[0]] + Base64ToUrl(t[1..])
  }

  /** On a base64url text (no `+` or `/` in it) the rewrite loses nothing. */
  lemma {:induction false} UrlToBase64RoundTrip(s: string)
    requires '+' !in s && '/' !in s
    ensures Base64ToUrl(UrlToBase64(s)) == s
  {
    if s != [] {
      assert s == [s[0]] + s[1..];
      UrlToBase64RoundTrip(s[1..]);
    }
  }

  /** `(4 - (n % 4)) % 4`: how many `=` bring a length of `n` to a multiple of four. */
  function PaddingLength(n: nat): (p: nat)
    ensures p <= 3
    ensures (n + p) % 4 == 0
    ensures n % 4 == 0 <==> p == 0
  {
    (4 - n % 4) % 4
  }

  /** No shorter padding would do: the padding is the least that completes a quantum. */
  lemma PaddingIsLeast(n: nat, q: nat)
    requires (n + q) % 4 == 0
    ensures PaddingLength(n) <= q
  {
  }

  function Equals(k: nat): (pad: string)
    ensures |pad| == k && forall i :: 0 <= i < k ==> pad[i] == '='
  {
    if k == 0 then [] else Equals(k - 1) + "="
  }

  /** The text handed to `atob`: the rewritten segment followed by its padding. */
  function PaddedBase64(segment: string): (b: string)
    ensures |b| % 4 == 0 && |segment| <= |b| <= |segment| + 3
    ensures b[..|segment|] == UrlToBase64(segment)
    ensures forall i :: |segment| <= i < |b| ==> b[i] == '='
  {
    UrlToBase64(segment) + Equals(PaddingLength(|segment|))
  }

  /** `token.startsWith("admin_") ? token.slice(6) : token`. */
  function StripAdminPrefix(token: string): (t: string)
    ensures ADMIN_PREFIX <= token ==> token == ADMIN_PREFIX + t
    ensures !(ADMIN_PREFIX <= token) ==> t == token
  {
    if ADMIN_PREFIX <= token then token[|ADMIN_PREFIX|..] else token
  }

  /** The prefix comes off once: a doubled prefix leaves one behind. */
  lemma StripsOnce(t: string)
    ensures StripAdminPrefix(ADMIN_PREFIX + ADMIN_PREFIX + t) == ADMIN_PREFIX + t
  {
    assert ADMIN_PREFIX <= ADMIN_PREFIX + ADMIN_PREFIX + t;
    assert (ADMIN_PREFIX + ADMIN_PREFIX + t)[|ADMIN_PREFIX|..] == ADMIN_PREFIX + t;
  }

  /** `s.split(".")`: the dot-free runs between dots, always at least one. */
  function Split(s: string): (parts: seq<string>)
    ensures |parts| >= 1
    ensures forall i :: 0 <= i < |parts| ==> '.' !in parts[i]
  {
    if s == [] then [""]
    else if s[0] == '.' then [""] + Split(s[1..])
    else
      var rest := Split(s[1..]);
      [[s[0]] + rest[0]] + rest[1..]
  }

  /** `parts.join(".")`. */
  function Join(parts: seq<string>): string
    requires |parts| >= 1
  {
    if |parts| == 1 then parts[0] else parts[0] + "." + Join(parts[1..])
  }

  /** A dot-free head followed by a dot splits off as the first segment. */
  lemma {:induction false} SplitAfterHead(h: string, rest: string)
    requires '.' !in h
    ensures Split(h + "." + rest) == [h] + Split(rest)
  {
    if h == [] {
      assert h + "." + rest == ['.'] + rest;
      assert (['.'] + rest)[1..] == rest;
    } else {
      var s := h + "." + rest;
      assert s[0] == h[0] && s[1..] == h[1..] + "." + rest;
      SplitAfterHead(h[1..], rest);
      assert [h[0]] + h[1..] == h;
    }
  }

  /** Splitting undoes joining dot-free segments. */
  lemma {:induction false} SplitJoin(parts: seq<string>)
    requires |parts| >= 1
    requires forall i :: 0 <= i < |parts| ==> '.' !in parts[i]
    ensures Split(Join(parts)) == parts
  {
    if |parts| == 1 {
      SplitOfDotFree(parts[0]);
    } else {
      SplitJoin(parts[1..]);
      SplitAfterHead(parts[0], Join(parts[1..]));
      assert [parts[0]] + parts[1..] == parts;
    }
  }

  /** Joining undoes splitting. */
  lemma {:induction false} JoinSplit(s: string)
    ensures Join(Split(s)) == s
  {
    if s != [] {
      JoinSplit(s[1..]);
      var rest := Split(s[1..]);
      if s[0] == '.' {
        assert ([""] + rest)[1..] == rest;
        assert s == "." + s[1..];
      } else {
        var parts := [[s[0]] + rest[0]] + rest[1..];
        if |rest| == 1 {
          assert s == [s[0]] + rest[0];
        } else {
          assert parts[1..] == rest[1..];
          assert rest == [rest[0]] + rest[1..];
          assert Join(rest) == rest[0] + "." + Join(rest[1..]);
          assert s == [s[0]] + s[1..];
        }
      }
    }
  }

  lemma {:induction false} SplitOfDotFree(s: string)
    requires '.' !in s
    ensures Split(s) == [s]
  {
    if s != [] {
      assert '.' !in s[1..];
      SplitOfDotFree(s[1..]);
      assert [s[0]] + s[1..] == s;
    }
  }

  /**
   * The claims `JSON.parse` finds in the payload: `exp` when it is a number
   * (a missing or non-numeric `exp` is `None`) and `role` when it is a string.
   */
  datatype Claims = Claims(exp: Option<int>, role: Option<string>)

  /** The header and payload segments, when both are non-empty (`!headerB64 || !payloadB64`). */
  function Segments(token: string): (seg: Option<(string, string)>)
    ensures seg.Some? ==> seg.value.0 != "" && seg.value.1 != ""
  {
    var parts := Split(StripAdminPrefix(token));
    if parts[0] == "" || |parts| < 2 || parts[1] == "" then None else Some((parts[0], parts[1]))
  }

  /** `payload.exp && payload.exp < now`: a present, non-zero expiry in the past. */
  predicate Expired(c: Claims, nowSeconds: int): (b: bool)
    ensures c.exp.None? || c.exp == Some(0) ==> !b
    ensures b ==> c.exp.value < nowSeconds
  {
    c.exp.Some? && c.exp.value != 0 && c.exp.value < nowSeconds
  }

  /**
   * `verifyAuth`. `decode` stands for `atob` followed by `JSON.parse` (and
   * reading fields of what it returned): `None` when any of them throws.
   * The clock reading `nowMs` is in milliseconds, as `Date.now()`.
   */
  function VerifyAuth(token: string, nowMs: nat, decode: string -> Option<Claims>): (ok: bool)
    ensures ok ==> Segments(token).Some?
  {
    match Segments(token)
    case None => false
    case Some((_, payload)) =>
      match decode(PaddedBase64(payload))
      case None => false
      case Some(c) => !Expired(c, nowMs / 1000) && c.role == Some(ADMIN_ROLE)
  }

  /**
   * For a token of three dot-separated parts (the header may carry the admin
   * prefix): it is accepted exactly when the header left after the prefix and
   * the payload are non-empty, the payload decodes, the claims have not
   * expired and name the admin role.
   */
  lemma AcceptedIff(h: string, p: string, sig: string, nowMs: nat, decode: string -> Option<Claims>)
    requires '.' !in h && '.' !in p
    ensures VerifyAuth(h + "." + p + "." + sig, nowMs, decode) <==>
      StripAdminPrefix(h) != "" && p != ""
      && decode(PaddedBase64(p)).Some?
      && !Expired(decode(PaddedBase64(p)).value, nowMs / 1000)
      && decode(PaddedBase64(p)).value.role == Some(ADMIN_ROLE)
  {
    StrippedDotFree(h);
    SplitsAlike(h, StripAdminPrefix(h), p, sig);
  }

  /** Claims that do not name the admin role are rejected, whatever their expiry. */
  lemma WrongRoleRejected(h: string, p: string, sig: string, nowMs: nat,
                          decode: string -> Option<Claims>, c: Claims)
    requires '.' !in h && '.' !in p
    requires decode(PaddedBase64(p)) == Some(c) && c.role != Some(ADMIN_ROLE)
    ensures !VerifyAuth(h + "." + p + "." + sig, nowMs, decode)
  {
    AcceptedIff(h, p, sig, nowMs, decode);
  }

  /** A payload that does not decode (bad base64, bad JSON) is rejected. */
  lemma UndecodableRejected(h: string, p: string, sig: string, nowMs: nat,
                            decode: string -> Option<Claims>)
    requires '.' !in h && '.' !in p
    requires decode(PaddedBase64(p)).None?
    ensures !VerifyAuth(h + "." + p + "." + sig, nowMs, decode)
  {
    AcceptedIff(h, p, sig, nowMs, decode);
  }

  /** A token without a non-empty first or second segment is rejected before anything is decoded. */
  lemma MissingSegmentRejected(token: string, nowMs: nat, decode: string -> Option<Claims>)
    requires var parts := Split(StripAdminPrefix(token)); parts[0] == "" || |parts| < 2 || parts[1] == ""
    ensures !VerifyAuth(token, nowMs, decode)
  {
  }

  /** An expiry before the current second rejects; an expiry equal to it does not. */
  lemma ExpiryBoundary(h: string, p: string, sig: string, nowMs: nat, decode: string -> Option<Claims>, c: Claims)
    requires StripAdminPrefix(h) != "" && p != "" && '.' !in h && '.' !in p
    requires decode(PaddedBase64(p)) == Some(c) && c.role == Some(ADMIN_ROLE) && c.exp.Some?
    ensures c.exp.value != 0 && c.exp.value < nowMs / 1000 ==> !VerifyAuth(h + "." + p + "." + sig, nowMs, decode)
    ensures c.exp.value >= nowMs / 1000 ==> VerifyAuth(h + "." + p + "." + sig, nowMs, decode)
  {
    StrippedDotFree(h);
    SplitsAlike(h, StripAdminPrefix(h), p, sig);
  }

  /** Removing the prefix from a dot-free header leaves it dot-free. */
  lemma StrippedDotFree(h: string)
    requires '.' !in h
    ensures '.' !in StripAdminPrefix(h)
  {
    var h' := StripAdminPrefix(h);
    if ADMIN_PREFIX <= h {
      assert forall i :: 0 <= i < |h'| ==> h'[i] == h[i + |ADMIN_PREFIX|];
    }
  }

  /** A dot-free head that does not start with the prefix keeps the whole token from starting with it. */
  lemma NoPrefixAcrossDot(h: string, rest: string)
    requires '.' !in h && !(ADMIN_PREFIX <= h)
    ensures !(ADMIN_PREFIX <= h + "." + rest)
  {
    var t := h + "." + rest;
    if |h| < |ADMIN_PREFIX| {
      assert t[|h|] == '.' && '.' !in ADMIN_PREFIX;
    } else {
      assert t[..|ADMIN_PREFIX|] == h[..|ADMIN_PREFIX|];
    }
  }

  /** Which token text is split: the prefix depends only on the dot-free header. */
  lemma StripHeader(h: string, rest: string)
    requires '.' !in h
    ensures StripAdminPrefix(h + "." + rest) == StripAdminPrefix(h) + "." + rest
  {
    if ADMIN_PREFIX <= h {
      assert (h + "." + rest)[..|ADMIN_PREFIX|] == h[..|ADMIN_PREFIX|];
      assert (h + "." + rest)[|ADMIN_PREFIX|..] == h[|ADMIN_PREFIX|..] + "." + rest;
    } else {
      NoPrefixAcrossDot(h, rest);
    }
  }

  /** The signature is never checked: two tokens that differ only after the second dot get the same verdict. */
  lemma SignatureIgnored(h: string, p: string, sig1: string, sig2: string, nowMs: nat,
                         decode: string -> Option<Claims>)
    requires '.' !in h && '.' !in p
    ensures VerifyAuth(h + "." + p + "." + sig1, nowMs, decode)
         == VerifyAuth(h + "." + p + "." + sig2, nowMs, decode)
  {
    var h' := StripAdminPrefix(h);
    StrippedDotFree(h);
    SplitsAlike(h, h', p, sig1);
    SplitsAlike(h, h', p, sig2);
  }

  lemma SplitsAlike(h: string, h': string, p: string, sig: string)
    requires '.' !in h && '.' !in h' && '.' !in p && h' == StripAdminPrefix(h)
    ensures var parts := Split(StripAdminPrefix(h + "." + p + "." + sig));
      |parts| >= 2 && parts[0] == h' && parts[1] == p
  {
    assert h + "." + p + "." + sig == h + "." + (p + "." + sig);
    StripHeader(h, p + "." + sig);
    SplitAfterHead(h', p + "." + sig);
    SplitAfterHead(p, sig);
  }
}
