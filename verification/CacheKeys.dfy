/** The length-prefixed cache keys of internal/authcmd/cache.go and internal/oauth/manager.go. */
module CacheKeys {
  import opened Wrappers
  import opened Text
  import AuthConfig

  /** One part of a key: its length, a colon, its bytes and a fixed terminator. */
  function Part(value: string, end: string): string {
    Itoa(|value|) + ":" + value + end
  }

  function Encode(parts: seq<string>, end: string): string {
    if parts == [] then "" else Part(parts[0], end) + Encode(parts[1..], end)
  }

  lemma LengthUnique(m: string, n: string, x: string, y: string)
    requires AllDigits(m) && AllDigits(n) && m + ":" + x == n + ":" + y
    ensures m == n && x == y
  {
    var text := m + ":" + x;
    assert text[0..|m|] == m && text[|m|] == ':';
    assert text[0..|n|] == n && text[|n|] == ':' by {
      assert text == n + ":" + y;
    }
    DigitsEndUnique(text, 0, |m|);
    DigitsEndUnique(text, 0, |n|);
    assert text[|m| + 1..] == x && text[|n| + 1..] == y;
  }

  /** The first part of a key can be read off in one way. */
  lemma FirstPartUnique(v: string, w: string, end: string, rest: string, tail: string)
    requires Part(v, end) + rest == Part(w, end) + tail
    ensures v == w && rest == tail
  {
    var m, n := Itoa(|v|), Itoa(|w|);
    var x, y := v + (end + rest), w + (end + tail);
    ItoaReads(|v|);
    ItoaReads(|w|);
    assert m + ":" + x == Part(v, end) + rest;
    assert n + ":" + y == Part(w, end) + tail;
    LengthUnique(m, n, x, y);
    assert x[..|v|] == v && y[..|w|] == w;
    assert x[|v| + |end|..] == rest && y[|w| + |end|..] == tail;
  }

  /** Keys are uniquely decodable: two part lists render the same key only if they are the same. */
  lemma {:induction false} EncodeInjective(ps: seq<string>, qs: seq<string>, end: string)
    ensures Encode(ps, end) == Encode(qs, end) <==> ps == qs
  {
    if Encode(ps, end) == Encode(qs, end) {
      if ps == [] || qs == [] {
        PartNonEmpty(ps, end);
        PartNonEmpty(qs, end);
      } else {
        FirstPartUnique(ps[0], qs[0], end, Encode(ps[1..], end), Encode(qs[1..], end));
        EncodeInjective(ps[1..], qs[1..], end);
        assert ps == [ps[0]] + ps[1..] && qs == [qs[0]] + qs[1..];
      }
    }
  }

  lemma PartNonEmpty(parts: seq<string>, end: string)
    ensures Encode(parts, end) == "" <==> parts == []
  {
    if parts != [] {
      ItoaReads(|parts[0]|);
      assert Encode(parts, end)[0] == Itoa(|parts[0]|)[0];
    }
  }

  // ---------------------------------------------------------------- internal/authcmd/cache.go

  const AUTH_END := "|"

  function Scope(env: string, workspace: string): string {
    Encode([env, workspace], AUTH_END)
  }

  function CacheEntryKey(env: string, cfg: AuthConfig.Config): string {
    if cfg.cacheKey == "" then "" else Encode([ToLower(Trim(env)), cfg.cacheKey], AUTH_END)
  }

  lemma ScopeInjective(env: string, workspace: string, env': string, workspace': string)
    ensures Scope(env, workspace) == Scope(env', workspace') <==> env == env' && workspace == workspace'
  {
    EncodeInjective([env, workspace], [env', workspace'], AUTH_END);
    var ps, qs := [env, workspace], [env', workspace'];
    assert ps == qs ==> ps[0] == qs[0] && ps[1] == qs[1];
  }

  /** Commands share a credential exactly when they name the same cache key in the same environment. */
  lemma CacheEntryKeyInjective(env: string, cfg: AuthConfig.Config, env': string, cfg': AuthConfig.Config)
    ensures CacheEntryKey(env, cfg) == "" <==> cfg.cacheKey == ""
    ensures CacheEntryKey(env, cfg) == CacheEntryKey(env', cfg') <==>
            cfg.cacheKey == cfg'.cacheKey && (cfg.cacheKey != "" ==> ToLower(Trim(env)) == ToLower(Trim(env')))
  {
    var ps, qs := [ToLower(Trim(env)), cfg.cacheKey], [ToLower(Trim(env')), cfg'.cacheKey];
    PartNonEmpty(ps, AUTH_END);
    PartNonEmpty(qs, AUTH_END);
    EncodeInjective(ps, qs, AUTH_END);
    assert ps == qs ==> ps[0] == qs[0] && ps[1] == qs[1];
  }

  /** A key has no outer white space, so saving and restoring it does not change it. */
  lemma CacheEntryKeyTrimmed(env: string, cfg: AuthConfig.Config)
    ensures Trimmed(CacheEntryKey(env, cfg))
  {
    if cfg.cacheKey != "" {
      var a, b := Part(ToLower(Trim(env)), AUTH_END), Part(cfg.cacheKey, AUTH_END);
      var key := CacheEntryKey(env, cfg);
      calc {
        key;
        a + Encode([cfg.cacheKey], AUTH_END);
        a + (b + Encode([], AUTH_END));
        a + b;
      }
      ItoaReads(|ToLower(Trim(env))|);
      assert IsDigit(a[0]);
      assert key[0] == a[0] && key[|key| - 1] == b[|b| - 1] == '|';
    }
  }

  // ---------------------------------------------------------------- internal/oauth/manager.go

  const GRANT_CLIENT_CREDENTIALS := "client_credentials"

  datatype OAuthConfig = OAuthConfig(
    tokenURL: string, authURL: string, redirectURL: string, clientID: string, clientSecret: string,
    scope: string, audience: string, resource: string, username: string, password: string,
    clientAuth: string, grantType: string, header: string, cacheKey: string, code: string,
    codeVerifier: string, codeMethod: string, state: string, extra: map<string, string>)

  function LowerTrim(s: string): string {
    ToLower(Trim(s))
  }

  function ExtraName(raw: string): (r: string) {
    ToLower(Underscored(Trim(raw)))
  }

  /** strings.ReplaceAll(s, "-", "_"). */
  function Underscored(s: string): (r: string)
    ensures |r| == |s| && forall i | 0 <= i < |s| :: r[i] == if s[i] == '-' then '_' else s[i]
  {
    seq(|s|, i requires 0 <= i < |s| => if s[i] == '-' then '_' else s[i])
  }

  /** An entry of the raw parameters that survives normalisation. */
  predicate Keeps(extra: map<string, string>, raw: string) {
    raw in extra && ExtraName(raw) != "" && Trim(extra[raw]) != ""
  }

  /** Normalising walks a Go map, so when several raw names normalise to one name, any of their
      values may be the one that stays. */
  ghost predicate NormalizesExtra(extra: map<string, string>, out: map<string, string>) {
    && (forall raw :: Keeps(extra, raw) ==> ExtraName(raw) in out)
    && (forall name | name in out ::
          exists raw :: Keeps(extra, raw) && ExtraName(raw) == name && out[name] == Trim(extra[raw]))
  }

  method NormalizeExtras(extra: map<string, string>) returns (out: map<string, string>)
    ensures NormalizesExtra(extra, out)
  {
    out := map[];
    var rest := extra.Keys;
    while rest != {}
      invariant rest <= extra.Keys
      invariant forall raw :: Keeps(extra, raw) && raw !in rest ==> ExtraName(raw) in out
      invariant forall name | name in out ::
                  exists raw :: Keeps(extra, raw) && ExtraName(raw) == name && out[name] == Trim(extra[raw])
    {
      var raw :| raw in rest;
      rest := rest - {raw};
      var name, value := ExtraName(raw), Trim(extra[raw]);
      if name != "" && value != "" {
        assert Keeps(extra, raw);
        out := out[name := value];
      }
    }
  }

  /** No two surviving raw names normalise to one name with different values. */
  ghost predicate NamesAgree(extra: map<string, string>) {
    forall a, b :: Keeps(extra, a) && Keeps(extra, b) && ExtraName(a) == ExtraName(b)
                   ==> Trim(extra[a]) == Trim(extra[b])
  }

  ghost function PickExtra(extra: map<string, string>, a: string): (out: map<string, string>)
    requires Keeps(extra, a)
    ensures NormalizesExtra(extra, out) && out[ExtraName(a)] == Trim(extra[a])
  {
    var names := set raw | raw in extra && Keeps(extra, raw) :: ExtraName(raw);
    map name | name in names ::
      if name == ExtraName(a) then Trim(extra[a])
      else var raw :| Keeps(extra, raw) && ExtraName(raw) == name; Trim(extra[raw])
  }

  /** The normalised parameters, and with them the cache key, are determined by the raw ones
      exactly when names that coincide after normalisation carry the same value. */
  lemma NormalizedExtraUnique(extra: map<string, string>)
    ensures NamesAgree(extra) <==>
            forall out, out' :: NormalizesExtra(extra, out) && NormalizesExtra(extra, out') ==> out == out'
  {
    if NamesAgree(extra) {
      forall out, out' | NormalizesExtra(extra, out) && NormalizesExtra(extra, out') ensures out == out' {
        assert out.Keys == out'.Keys;
      }
    } else {
      var a, b :| Keeps(extra, a) && Keeps(extra, b) && ExtraName(a) == ExtraName(b)
                  && Trim(extra[a]) != Trim(extra[b]);
      assert PickExtra(extra, a) != PickExtra(extra, b);
    }
  }

  /** cfg is a possible result of Config.Normalized on raw. */
  ghost predicate Normalizes(raw: OAuthConfig, cfg: OAuthConfig) {
    && cfg == OAuthConfig(
         Trim(raw.tokenURL), Trim(raw.authURL), Trim(raw.redirectURL), Trim(raw.clientID), Trim(raw.clientSecret),
         Trim(raw.scope), Trim(raw.audience), Trim(raw.resource), Trim(raw.username), Trim(raw.password),
         LowerTrim(raw.clientAuth), LowerTrim(raw.grantType), Trim(raw.header), Trim(raw.cacheKey), Trim(raw.code),
         Trim(raw.codeVerifier), LowerTrim(raw.codeMethod), Trim(raw.state), cfg.extra)
    && NormalizesExtra(raw.extra, cfg.extra)
  }

  /** Names of parameters are folded: case, outer white space, and dashes against underscores do not matter. */
  lemma ExtraNamesFold(p: string, raw: string, q: string)
    requires AllSpace(p) && AllSpace(q)
    ensures ExtraName(p + raw + q) == ExtraName(raw) == ExtraName(Underscored(raw)) == ExtraName(ToLower(raw))
    ensures ExtraName("Resource-Id") == "resource_id"
  {
    hide Trim, Underscored, ToLower;
    PaddingIsTrimmed(p, raw, q);
    FoldingTrims(raw);
    FoldingTwice(Trim(raw));
    TrimFixed("Resource-Id");
    assert Underscored("Resource-Id") == "Resource_Id";
    assert ToLower("Resource_Id") == "resource_id";
  }

  lemma FoldingTwice(t: string)
    ensures Underscored(Underscored(t)) == Underscored(t) && ToLower(Underscored(ToLower(t))) == ToLower(Underscored(t))
  {
  }

  /** Folding characters one by one does not move the outer white space. */
  lemma FoldingTrims(raw: string)
    ensures Trim(Underscored(raw)) == Underscored(Trim(raw)) && Trim(ToLower(raw)) == ToLower(Trim(raw))
  {
    hide Trim;
    var a, b := TrimSplits(raw);
    var t := Trim(raw);
    FoldedParts(a, t, b);
    PaddingIsTrimmed(Underscored(a), Underscored(t), Underscored(b));
    PaddingIsTrimmed(ToLower(a), ToLower(t), ToLower(b));
    UnderscoredTrimmed(t);
    LowerTrimmed(t);
    TrimFixed(Underscored(t));
    TrimFixed(ToLower(t));
  }

  lemma FoldedParts(a: string, t: string, b: string)
    ensures Underscored(a + t + b) == Underscored(a) + Underscored(t) + Underscored(b)
    ensures ToLower(a + t + b) == ToLower(a) + ToLower(t) + ToLower(b)
    ensures AllSpace(a) ==> AllSpace(Underscored(a)) && AllSpace(ToLower(a))
    ensures AllSpace(b) ==> AllSpace(Underscored(b)) && AllSpace(ToLower(b))
  {
    hide IsSpace;
    assert !IsSpace('-') && !IsSpace('_') by { DashesAreNoSpace(); }
  }

  lemma DashesAreNoSpace()
    ensures !IsSpace('-') && !IsSpace('_')
  {
  }

  /** What the fields of a normalised configuration look like. */
  ghost predicate Normal(cfg: OAuthConfig) {
    && Trimmed(cfg.tokenURL) && Trimmed(cfg.authURL) && Trimmed(cfg.redirectURL) && Trimmed(cfg.clientID)
    && Trimmed(cfg.scope) && Trimmed(cfg.audience) && Trimmed(cfg.resource) && Trimmed(cfg.grantType)
    && Trimmed(cfg.codeMethod) && Trimmed(cfg.codeVerifier) && Trimmed(cfg.username) && Trimmed(cfg.clientAuth)
    && Trimmed(cfg.cacheKey) && NormalExtra(cfg.extra)
  }

  ghost predicate NormalExtra(extra: map<string, string>) {
    forall name | name in extra :: Trimmed(name) && Trimmed(extra[name])
  }

  lemma LowerTrimTrimmed(s: string)
    ensures Trimmed(Trim(s)) && Trimmed(LowerTrim(s))
  {
    TrimIdempotent(s);
    LowerTrimmed(Trim(s));
  }

  lemma NormalizedIsNormal(raw: OAuthConfig, cfg: OAuthConfig)
    requires Normalizes(raw, cfg)
    ensures Normal(cfg)
  {
    LowerTrimTrimmed(raw.tokenURL);
    LowerTrimTrimmed(raw.authURL);
    LowerTrimTrimmed(raw.redirectURL);
    LowerTrimTrimmed(raw.clientID);
    LowerTrimTrimmed(raw.scope);
    LowerTrimTrimmed(raw.audience);
    LowerTrimTrimmed(raw.resource);
    LowerTrimTrimmed(raw.grantType);
    LowerTrimTrimmed(raw.codeMethod);
    LowerTrimTrimmed(raw.codeVerifier);
    LowerTrimTrimmed(raw.username);
    LowerTrimTrimmed(raw.clientAuth);
    LowerTrimTrimmed(raw.cacheKey);
    NormalizedExtraIsNormal(raw.extra, cfg.extra);
  }

  lemma NormalizedExtraIsNormal(extra: map<string, string>, out: map<string, string>)
    requires NormalizesExtra(extra, out)
    ensures NormalExtra(out)
  {
    forall name | name in out ensures Trimmed(name) && Trimmed(out[name]) {
      var raw :| Keeps(extra, raw) && ExtraName(raw) == name && out[name] == Trim(extra[raw]);
      ExtraNameTrimmed(raw);
      TrimIdempotent(extra[raw]);
    }
  }

  lemma ExtraNameTrimmed(raw: string)
    ensures Trimmed(ExtraName(raw))
  {
    TrimIdempotent(raw);
    UnderscoredTrimmed(Trim(raw));
    LowerTrimmed(Underscored(Trim(raw)));
  }

  lemma UnderscoredTrimmed(s: string)
    requires Trimmed(s)
    ensures Trimmed(Underscored(s))
  {
  }

  lemma DerivedFieldsTrimmed(cfg: OAuthConfig)
    requires Normal(cfg)
    ensures Trims(DerivedFields(cfg)) == DerivedFields(cfg)
  {
    var ps := DerivedFields(cfg);
    forall i | 0 <= i < |ps| ensures Trim(ps[i]) == ps[i] {
      TrimFixed(ps[i]);
    }
  }

  function DerivedFields(cfg: OAuthConfig): seq<string> {
    [cfg.tokenURL, cfg.authURL, cfg.redirectURL, cfg.clientID, cfg.scope, cfg.audience, cfg.resource,
     cfg.grantType, cfg.codeMethod, cfg.codeVerifier, cfg.username, cfg.clientAuth]
  }

  ghost function ExtraParts(extra: map<string, string>, names: seq<string>): seq<string>
    requires forall n | n in names :: n in extra
  {
    if names == [] then [] else [names[0], extra[names[0]]] + ExtraParts(extra, names[1..])
  }

  function Trims(parts: seq<string>): (r: seq<string>)
    ensures |r| == |parts| && forall i | 0 <= i < |parts| :: r[i] == Trim(parts[i])
  {
    seq(|parts|, i requires 0 <= i < |parts| => Trim(parts[i]))
  }

  /** The parts a normalised configuration renders into its cache key. */
  ghost function KeyParts(env: string, cfg: OAuthConfig): seq<string> {
    if cfg.cacheKey != "" then [env, cfg.cacheKey]
    else
      SortedIsAscending(cfg.extra.Keys);
      [ToLower(Trim(env))] + DerivedFields(cfg) + ExtraParts(cfg.extra, Sorted(cfg.extra.Keys))
  }

  ghost function OAuthKey(env: string, cfg: OAuthConfig): string {
    Encode(Trims(KeyParts(env, cfg)), "")
  }

  lemma {:induction false} ExtraPartsInjective(m: map<string, string>, ns: seq<string>, m': map<string, string>, ns': seq<string>)
    requires forall n | n in ns :: n in m
    requires forall n | n in ns' :: n in m'
    requires ExtraParts(m, ns) == ExtraParts(m', ns')
    ensures ns == ns' && forall n | n in ns :: m[n] == m'[n]
  {
    if ns == [] || ns' == [] {
      assert |ExtraParts(m, ns)| == 2 * |ns| by { ExtraPartsLength(m, ns); }
      assert |ExtraParts(m', ns')| == 2 * |ns'| by { ExtraPartsLength(m', ns'); }
    } else {
      var p, p' := ExtraParts(m, ns), ExtraParts(m', ns');
      assert p[0] == p'[0] && p[1] == p'[1] && p[2..] == p'[2..];
      assert p[2..] == ExtraParts(m, ns[1..]) && p'[2..] == ExtraParts(m', ns'[1..]);
      ExtraPartsInjective(m, ns[1..], m', ns'[1..]);
      assert ns == [ns[0]] + ns[1..] && ns' == [ns'[0]] + ns'[1..];
    }
  }

  lemma {:induction false} ExtraPartsLength(m: map<string, string>, ns: seq<string>)
    requires forall n | n in ns :: n in m
    ensures |ExtraParts(m, ns)| == 2 * |ns|
    ensures (forall n | n in m :: Trimmed(n) && Trimmed(m[n])) ==> forall p | p in ExtraParts(m, ns) :: Trimmed(p)
  {
    if ns != [] {
      ExtraPartsLength(m, ns[1..]);
    }
  }

  lemma KeyPartsTrimmed(env: string, cfg: OAuthConfig)
    requires Normal(cfg)
    ensures cfg.cacheKey == "" ==> Trims(KeyParts(env, cfg)) == KeyParts(env, cfg)
    ensures cfg.cacheKey != "" ==> Trims(KeyParts(env, cfg)) == [Trim(env), cfg.cacheKey]
    ensures cfg.cacheKey == "" ==> |KeyParts(env, cfg)| == 13 + 2 * |cfg.extra|
  {
    if cfg.cacheKey == "" {
      SortedIsAscending(cfg.extra.Keys);
      var extras := ExtraParts(cfg.extra, Sorted(cfg.extra.Keys));
      ExtraPartsLength(cfg.extra, Sorted(cfg.extra.Keys));
      LowerTrimTrimmed(env);
      DerivedFieldsTrimmed(cfg);
      AllTrimmed([LowerTrim(env)]);
      AllTrimmed(extras);
      TrimsConcat([LowerTrim(env)], DerivedFields(cfg));
      TrimsConcat([LowerTrim(env)] + DerivedFields(cfg), extras);
    } else {
      TrimFixed(cfg.cacheKey);
    }
  }

  lemma AllTrimmed(parts: seq<string>)
    requires forall p | p in parts :: Trimmed(p)
    ensures Trims(parts) == parts
  {
    forall i | 0 <= i < |parts| ensures Trim(parts[i]) == parts[i] {
      TrimFixed(parts[i]);
    }
  }

  lemma TrimsConcat(ps: seq<string>, qs: seq<string>)
    ensures Trims(ps + qs) == Trims(ps) + Trims(qs)
  {
  }

  /** What two normalised configurations must share to share a token: an explicit key in one
      environment, or every identifying field and parameter. */
  ghost predicate SameIdentity(env: string, cfg: OAuthConfig, env': string, cfg': OAuthConfig) {
    if cfg.cacheKey != "" then cfg'.cacheKey == cfg.cacheKey && Trim(env) == Trim(env')
    else cfg'.cacheKey == "" && ToLower(Trim(env)) == ToLower(Trim(env'))
         && DerivedFields(cfg) == DerivedFields(cfg') && cfg.extra == cfg'.extra
  }

  /** Spelled out: what tells derived keys apart, and nothing else does, neither secrets nor what only a
      single request needs. */
  lemma DerivedKeysTellApart(env: string, a: OAuthConfig, env': string, b: OAuthConfig)
    requires Normal(a) && Normal(b) && a.cacheKey == "" == b.cacheKey
    ensures OAuthKey(env, a) == OAuthKey(env', b) <==>
              && ToLower(Trim(env)) == ToLower(Trim(env'))
              && a.tokenURL == b.tokenURL && a.authURL == b.authURL && a.redirectURL == b.redirectURL
              && a.clientID == b.clientID && a.clientAuth == b.clientAuth && a.username == b.username
              && a.scope == b.scope && a.audience == b.audience && a.resource == b.resource
              && a.grantType == b.grantType && a.codeMethod == b.codeMethod && a.codeVerifier == b.codeVerifier
              && a.extra == b.extra
  {
    hide OAuthKey, Normal;
    OAuthKeyInjective(env, a, env', b);
    var p, q := DerivedFields(a), DerivedFields(b);
    if p == q {
      assert p[0] == q[0] && p[1] == q[1] && p[2] == q[2] && p[3] == q[3] && p[4] == q[4] && p[5] == q[5];
      assert p[6] == q[6] && p[7] == q[7] && p[8] == q[8] && p[9] == q[9] && p[10] == q[10] && p[11] == q[11];
    }
  }

  lemma DerivedPartsSame(env: string, cfg: OAuthConfig, env': string, cfg': OAuthConfig)
    requires cfg.cacheKey == "" == cfg'.cacheKey && KeyParts(env, cfg) == KeyParts(env', cfg')
    ensures SameIdentity(env, cfg, env', cfg')
  {
    var ps, qs := KeyParts(env, cfg), KeyParts(env', cfg');
    var ns, ns' := Sorted(cfg.extra.Keys), Sorted(cfg'.extra.Keys);
    SortedIsAscending(cfg.extra.Keys);
    SortedIsAscending(cfg'.extra.Keys);
    assert ps[0] == ToLower(Trim(env)) && qs[0] == ToLower(Trim(env'));
    assert ps[1..13] == DerivedFields(cfg) && qs[1..13] == DerivedFields(cfg');
    assert ps[13..] == ExtraParts(cfg.extra, ns) && qs[13..] == ExtraParts(cfg'.extra, ns');
    ExtraPartsInjective(cfg.extra, ns, cfg'.extra, ns');
    assert cfg.extra.Keys == cfg'.extra.Keys;
  }

  /** Keys coincide exactly for configurations with the same identity; in particular an explicit
      key never meets a derived one. */
  lemma OAuthKeyInjective(env: string, cfg: OAuthConfig, env': string, cfg': OAuthConfig)
    requires Normal(cfg) && Normal(cfg')
    ensures OAuthKey(env, cfg) == OAuthKey(env', cfg') <==> SameIdentity(env, cfg, env', cfg')
    ensures OAuthKey(env, cfg) != ""
  {
    var ps, qs := Trims(KeyParts(env, cfg)), Trims(KeyParts(env', cfg'));
    EncodeInjective(ps, qs, "");
    KeyPartsTrimmed(env, cfg);
    KeyPartsTrimmed(env', cfg');
    PartNonEmpty(ps, "");
    if cfg.cacheKey == "" == cfg'.cacheKey {
      if ps == qs {
        DerivedPartsSame(env, cfg, env', cfg');
      }
    } else {
      assert ps == qs ==> |ps| == |qs| && ps[0] == qs[0] && ps[1] == qs[1];
    }
  }
}
