/** internal/authcmd/config.go, parse.go (validation) and render.go: how a credential command is
    described, how a follow-up request inherits from the cached description, and how a credential
    becomes a header. The seed of a description is what a cached credential depends on; two callers may
    share a credential only if their seeds do not differ, and comparing seeds reads a missing output
    format as the default one and leaves out the timeout and everything that only concerns the header. */
module AuthConfig {
  import opened Wrappers
  import opened Text

  // Instants and durations are nanoseconds. Go's zero time stands for "no time".
  type Time = int
  const ZERO_TIME: Time := 0

  const FORMAT_TEXT := "text"
  const FORMAT_JSON := "json"
  const DEFAULT_HEADER := "Authorization"
  const DEFAULT_SCHEME := "Bearer"
  const SHELLS := {"bash", "cmd", "fish", "powershell", "pwsh", "sh", "zsh"}

  datatype CommandConfig = CommandConfig(argv: seq<string>, dir: string, timeout: int) {
    function InheritedFrom(base: CommandConfig): CommandConfig {
      CommandConfig(if argv == [] then base.argv else argv,
                    InheritText(dir, base.dir), InheritInt(timeout, base.timeout))
    }
  }

  datatype ExtractConfig = ExtractConfig(
    format: string, tokenPath: string, typePath: string, expiryPath: string, expiresInPath: string)
  {
    function InheritedFrom(base: ExtractConfig): ExtractConfig {
      ExtractConfig(InheritText(format, base.format), InheritText(tokenPath, base.tokenPath),
                    InheritText(typePath, base.typePath), InheritText(expiryPath, base.expiryPath),
                    InheritText(expiresInPath, base.expiresInPath))
    }
  }

  datatype SeedDiff = Same | Differs(field: string)

  /** The part of a configuration that decides which credential the command yields. */
  datatype CacheSeed = CacheSeed(command: CommandConfig, extract: ExtractConfig, ttl: int) {
    function InheritedFrom(base: CacheSeed): CacheSeed {
      CacheSeed(command.InheritedFrom(base.command), extract.InheritedFrom(base.extract), InheritInt(ttl, base.ttl))
    }

    /** The first field in which two seeds disagree. The timeout is not compared. */
    function Diff(other: CacheSeed): SeedDiff {
      if command.argv != other.command.argv then Differs("argv")
      else if command.dir != other.command.dir then Differs("dir")
      else if EffectiveFormat(extract.format) != EffectiveFormat(other.extract.format) then Differs("format")
      else if extract.tokenPath != other.extract.tokenPath then Differs("token_path")
      else if extract.typePath != other.extract.typePath then Differs("type_path")
      else if extract.expiryPath != other.extract.expiryPath then Differs("expiry_path")
      else if extract.expiresInPath != other.extract.expiresInPath then Differs("expires_in_path")
      else if ttl != other.ttl then Differs("ttl")
      else Same
    }

    function ApplyTo(cfg: Config): Config {
      cfg.(argv := command.argv, dir := command.dir, timeout := command.timeout,
           format := extract.format, tokenPath := extract.tokenPath, typePath := extract.typePath,
           expiryPath := extract.expiryPath, expiresInPath := extract.expiresInPath, ttl := ttl)
    }
  }

  datatype Config = Config(
    argv: seq<string>, dir: string, format: string, header: string, scheme: string,
    tokenPath: string, typePath: string, expiryPath: string, expiresInPath: string,
    cacheKey: string, ttl: int, timeout: int)
  {
    function Seed(): CacheSeed {
      CacheSeed(CommandConfig(argv, dir, timeout),
                ExtractConfig(format, tokenPath, typePath, expiryPath, expiresInPath), ttl)
    }

    function SeedDiff(other: Config): SeedDiff {
      Seed().Diff(other.Seed())
    }

    predicate SameSeed(other: Config) {
      SeedDiff(other) == Same
    }

    function Normalize(): Config {
      Config(if argv == [] then [] else [Trim(argv[0])] + argv[1..],
             Trim(dir), NormalizeFormat(format), Trim(header), Trim(scheme),
             Trim(tokenPath), Trim(typePath), Trim(expiryPath), Trim(expiresInPath),
             Trim(cacheKey), ttl, timeout)
    }

    function InheritedFrom(base: Config): Config {
      var merged := this.(header := InheritText(header, base.header), scheme := InheritText(scheme, base.scheme));
      Seed().InheritedFrom(base.Seed()).ApplyTo(merged)
    }

    function HeaderName(): string {
      if header != "" then header else DEFAULT_HEADER
    }

    function TimeoutFor(base: int): int {
      if timeout > 0 && (base <= 0 || timeout < base) then timeout else base
    }
  }

  function InheritText(cur: string, base: string): string {
    if cur != "" then cur else base
  }

  function InheritInt(cur: int, base: int): int {
    if cur != 0 then cur else base
  }

  function EffectiveFormat(format: string): string {
    if format == "" then FORMAT_TEXT else format
  }

  function NormalizeFormat(format: string): string {
    var name := ToLower(Trim(format));
    if name in {"", FORMAT_TEXT, FORMAT_JSON} then name else Trim(format)
  }

  /** filepath.Base of a command: what follows the last slash, trailing slashes aside. */
  function BaseName(cmd: string): string {
    if cmd == "" then ""
    else if cmd[|cmd| - 1] == '/' then BaseName(cmd[..|cmd| - 1])
    else AfterSlash(cmd)
  }

  function AfterSlash(cmd: string): string {
    if '/' in cmd then AfterSlash(cmd[1..]) else cmd
  }

  predicate IsShell(cmd: string) {
    var base := ToLower(BaseName(cmd));
    var n := |base| - 4;
    (if n >= 0 && base[n..] == ".exe" then base[..n] else base) in SHELLS
  }

  predicate Valid(cfg: Config) {
    && cfg.argv != [] && cfg.argv[0] != "" && !IsShell(cfg.argv[0])
    && EffectiveFormat(cfg.format) in {FORMAT_TEXT, FORMAT_JSON}
    && cfg.ttl >= 0 && cfg.timeout >= 0
    && (cfg.ttl > 0 ==> cfg.cacheKey != "")
    && (EffectiveFormat(cfg.format) == FORMAT_JSON ==> cfg.tokenPath != "")
  }

  /** The configuration a command may run with; an invalid one is an error. */
  function Finalize(cfg: Config): Option<Config> {
    if Valid(cfg.Normalize()) then Some(cfg.Normalize()) else None
  }

  lemma NormalizeIdempotent(cfg: Config)
    ensures cfg.Normalize().Normalize() == cfg.Normalize()
  {
    var texts := [cfg.dir, cfg.header, cfg.scheme, cfg.tokenPath, cfg.typePath, cfg.expiryPath,
                  cfg.expiresInPath, cfg.cacheKey, cfg.format] + cfg.argv;
    forall t | t in texts ensures Trim(Trim(t)) == Trim(t) {
      TrimIdempotent(t);
    }
    assert cfg.dir in texts && cfg.header in texts && cfg.scheme in texts && cfg.tokenPath in texts
        && cfg.typePath in texts && cfg.expiryPath in texts && cfg.expiresInPath in texts && cfg.cacheKey in texts;
    NormalizeFormatIdempotent(cfg.format);
    if cfg.argv != [] {
      assert cfg.argv[0] in texts;
    }
  }

  lemma NormalizeFormatIdempotent(format: string)
    ensures NormalizeFormat(NormalizeFormat(format)) == NormalizeFormat(format)
  {
    var t := Trim(format);
    TrimIdempotent(format);
    LowerTrimmed(t);
    TrimFixed(ToLower(t));
    LowerIdempotent(t);
  }

  predicate AllTrimmed(cfg: Config) {
    && Trimmed(cfg.dir) && Trimmed(cfg.header) && Trimmed(cfg.scheme) && Trimmed(cfg.tokenPath) && Trimmed(cfg.typePath)
    && Trimmed(cfg.expiryPath) && Trimmed(cfg.expiresInPath) && Trimmed(cfg.cacheKey)
    && (cfg.argv != [] ==> Trimmed(cfg.argv[0]))
  }

  /** White space around a field does not matter, nor does the case of a known format; everything else is
      kept as it is. */
  lemma NormalizeOnlyTrims(cfg: Config, p: string, q: string)
    requires AllSpace(p) && AllSpace(q)
    ensures var n := cfg.Normalize();
            && n == cfg.(dir := p + cfg.dir + q).Normalize() == cfg.(format := p + cfg.format + q).Normalize()
                 == cfg.(header := p + cfg.header + q).Normalize() == cfg.(scheme := p + cfg.scheme + q).Normalize()
                 == cfg.(tokenPath := p + cfg.tokenPath + q).Normalize() == cfg.(typePath := p + cfg.typePath + q).Normalize()
                 == cfg.(expiryPath := p + cfg.expiryPath + q).Normalize() == cfg.(expiresInPath := p + cfg.expiresInPath + q).Normalize()
                 == cfg.(cacheKey := p + cfg.cacheKey + q).Normalize()
            && (cfg.argv != [] ==> n == cfg.(argv := [p + cfg.argv[0] + q] + cfg.argv[1..]).Normalize())
            && (AllTrimmed(cfg) ==> n.(format := "") == cfg.(format := ""))
            && (ToLower(Trim(cfg.format)) in {"", "text", "json"} ==> n.format == ToLower(Trim(cfg.format)))
            && (ToLower(Trim(cfg.format)) !in {"", "text", "json"} ==> n.format == Trim(cfg.format))
  {
    hide Trim;
    forall t: string ensures Trim(p + t + q) == Trim(t) && (Trimmed(t) ==> Trim(t) == t) {
      PaddingIsTrimmed(p, t, q);
      if Trimmed(t) { TrimFixed(t); }
    }
    if cfg.argv != [] {
      assert cfg.argv == [cfg.argv[0]] + cfg.argv[1..];
    }
  }

  /** A shell is refused by its name, also with a directory in front, in capitals, or as a program file. */
  lemma ShellsAreShells(dir: string, shell: string)
    requires shell in ["bash", "cmd", "fish", "powershell", "pwsh", "sh", "zsh"]
    ensures IsShell(shell) && IsShell(dir + "/" + shell) && IsShell(shell + ".exe") && IsShell("PowerShell")
  {
    hide IsShell;
    ShellNames(shell);
    NameIsBase(dir, shell);
    NameIsBase(dir, shell + ".exe");
    NamedShell(shell, shell);
    NamedShell(dir + "/" + shell, shell);
    ShellFile(shell + ".exe", shell);
    NameIsBase(dir, "PowerShell");
    ShellNames("powershell");
    assert ToLower("PowerShell") == "powershell";
    NamedShell("PowerShell", "powershell");
  }

  lemma ShellNames(shell: string)
    requires shell in ["bash", "cmd", "fish", "powershell", "pwsh", "sh", "zsh"]
    ensures shell in SHELLS && shell != "" && '.' !in shell && '/' !in shell && '/' !in shell + ".exe"
    ensures ToLower(shell) == shell && ToLower(shell + ".exe") == shell + ".exe"
  {
    assert forall i | 0 <= i < |shell| :: 'a' <= shell[i] <= 'z';
    assert ToLower(shell) == shell && ToLower(shell + ".exe") == shell + ".exe";
  }

  lemma NamedShell(cmd: string, shell: string)
    requires ToLower(BaseName(cmd)) == shell && shell in SHELLS && '.' !in shell
    ensures IsShell(cmd)
  {
    hide BaseName, ToLower;
    var n := |shell| - 4;
    assert ".exe"[0] == '.' && (n >= 0 ==> shell[n..][0] != '.');
  }

  lemma ShellFile(cmd: string, shell: string)
    requires ToLower(BaseName(cmd)) == shell + ".exe" && shell in SHELLS
    ensures IsShell(cmd)
  {
    hide BaseName, ToLower;
    assert (shell + ".exe")[..|shell|] == shell && (shell + ".exe")[|shell|..] == ".exe";
  }

  lemma {:induction false} NameIsBase(dir: string, name: string)
    requires name != "" && '/' !in name
    ensures BaseName(name) == name && BaseName(dir + "/" + name) == name
  {
    assert (dir + "/" + name)[|dir + "/" + name| - 1] == name[|name| - 1];
    AfterTheLastSlash(dir + "/", name);
  }

  lemma {:induction false} AfterTheLastSlash(front: string, name: string)
    requires '/' !in name
    ensures front != "" && front[|front| - 1] == '/' ==> AfterSlash(front + name) == name
    ensures front == "" ==> AfterSlash(front + name) == name
    decreases |front|
  {
    if front == "" {
      assert front + name == name;
    } else if front[|front| - 1] == '/' {
      assert (front + name)[|front| - 1] == '/';
      assert (front + name)[1..] == front[1..] + name;
      AfterTheLastSlash(front[1..], name);
    }
  }

  /** Having the same seed is an equivalence, so it may be checked one hop at a time. */
  lemma SameSeedIsEquivalence(a: Config, b: Config, c: Config)
    ensures a.SameSeed(a)
    ensures a.SameSeed(b) ==> b.SameSeed(a)
    ensures a.SameSeed(b) && b.SameSeed(c) ==> a.SameSeed(c)
    ensures a.SameSeed(b) <==>
            a.Seed().(command := a.Seed().command.(timeout := 0), extract := a.Seed().extract.(format := EffectiveFormat(a.format)))
            == b.Seed().(command := b.Seed().command.(timeout := 0), extract := b.Seed().extract.(format := EffectiveFormat(b.format)))
  {
  }

  /** A field a follow-up request leaves out, or repeats, cannot conflict with the cached one. */
  ghost predicate Agrees(cfg: Config, base: Config) {
    && (cfg.argv == [] || cfg.argv == base.argv)
    && (cfg.dir == "" || cfg.dir == base.dir)
    && (cfg.format == "" || cfg.format == EffectiveFormat(base.format))
    && (cfg.tokenPath == "" || cfg.tokenPath == base.tokenPath)
    && (cfg.typePath == "" || cfg.typePath == base.typePath)
    && (cfg.expiryPath == "" || cfg.expiryPath == base.expiryPath)
    && (cfg.expiresInPath == "" || cfg.expiresInPath == base.expiresInPath)
    && (cfg.ttl == 0 || cfg.ttl == base.ttl)
  }

  /** Inheriting makes the seeds equal exactly when every field that was given repeats the base. */
  lemma InheritedSeedAgrees(cfg: Config, base: Config)
    ensures base.SameSeed(cfg.InheritedFrom(base)) <==> Agrees(cfg, base)
    ensures cfg.InheritedFrom(base).cacheKey == cfg.cacheKey
    ensures cfg.InheritedFrom(base).header == (if cfg.header == "" then base.header else cfg.header)
    ensures cfg.InheritedFrom(base).scheme == (if cfg.scheme == "" then base.scheme else cfg.scheme)
    ensures cfg.InheritedFrom(base).timeout == (if cfg.timeout == 0 then base.timeout else cfg.timeout)
    ensures cfg.InheritedFrom(base).InheritedFrom(base) == cfg.InheritedFrom(base)
  {
  }

  /** The timeout in force is the smallest positive one of the two, if either is positive. */
  lemma TimeoutForIsTighter(cfg: Config, base: int)
    ensures cfg.timeout > 0 && base > 0 ==>
              cfg.TimeoutFor(base) in {cfg.timeout, base} && cfg.TimeoutFor(base) <= cfg.timeout
              && cfg.TimeoutFor(base) <= base
    ensures cfg.timeout > 0 || base > 0 ==> cfg.TimeoutFor(base) > 0
    ensures cfg.timeout <= 0 ==> cfg.TimeoutFor(base) == base
  {
  }

  // ---------------------------------------------------------------- credentials and headers

  datatype Credential = Credential(token: string, kind: string, expiry: Time, fetchedAt: Time)

  const NO_CREDENTIAL := Credential("", "", ZERO_TIME, ZERO_TIME)

  datatype Rendered = Rendered(header: string, value: string, token: string, kind: string, expiry: Time)

  function EffectiveExpiry(cred: Credential, ttl: int): Time {
    if cred.expiry != ZERO_TIME then cred.expiry
    else if ttl > 0 && cred.fetchedAt != ZERO_TIME then cred.fetchedAt + ttl
    else ZERO_TIME
  }

  predicate ValidAt(cred: Credential, ttl: int, now: Time) {
    var expiry := EffectiveExpiry(cred, ttl);
    expiry == ZERO_TIME || now < expiry
  }

  function HeaderValue(cfg: Config, header: string, token: string, kind: string): (string, string) {
    if cfg.scheme != "" then (cfg.scheme + " " + token, cfg.scheme)
    else if ToLower(header) == ToLower(DEFAULT_HEADER) then
      var k := if kind == "" then DEFAULT_SCHEME else kind;
      (k + " " + token, k)
    else (token, "")
  }

  function Render(cfg: Config, cred: Credential): Rendered {
    var header := cfg.HeaderName();
    var (value, kind) := HeaderValue(cfg, header, cred.token, cred.kind);
    Rendered(header, value, cred.token, kind, EffectiveExpiry(cred, cfg.ttl))
  }

  /** The expiry a caller is told is the one the cache goes by, and a header always ends in the
      token, behind the kind it names. */
  lemma RenderTellsTheTruth(cfg: Config, cred: Credential, now: Time)
    ensures var r := Render(cfg, cred);
            && (ValidAt(cred, cfg.ttl, now) <==> r.expiry == ZERO_TIME || now < r.expiry)
            && r.token == cred.token
            && r.value == (if r.kind == "" then "" else r.kind + " ") + r.token
            && r.header != ""
  {
    assert "" + cred.token == cred.token;
  }

  /** What goes into the header: the scheme that is asked for, or else, in the Authorization header only,
      the kind of the token or Bearer. The expiry is the token's own, or else the end of its time to live. */
  lemma RenderedFields(cfg: Config, cred: Credential)
    ensures var r := Render(cfg, cred);
            && r.header == (if cfg.header == "" then "Authorization" else cfg.header)
            && (cfg.scheme != "" ==> r.value == cfg.scheme + " " + cred.token && r.kind == cfg.scheme)
            && (cfg.scheme == "" && r.header == "Authorization" ==>
                  r.kind == (if cred.kind == "" then "Bearer" else cred.kind) && r.value == r.kind + " " + cred.token)
            && (cfg.scheme == "" && |r.header| != |"Authorization"| ==> r.kind == "" && r.value == cred.token)
            && (cred.expiry != 0 ==> r.expiry == cred.expiry)
            && (cred.expiry == 0 && cfg.ttl > 0 && cred.fetchedAt != 0 ==> r.expiry == cred.fetchedAt + cfg.ttl)
            && (cred.expiry == 0 && (cfg.ttl <= 0 || cred.fetchedAt == 0) ==> r.expiry == 0)
  {
  }

  /** Validity ends once. */
  lemma ValidityEndsOnce(cred: Credential, ttl: int, earlier: Time, later: Time)
    requires earlier <= later && ValidAt(cred, ttl, later)
    ensures ValidAt(cred, ttl, earlier)
  {
  }
}
