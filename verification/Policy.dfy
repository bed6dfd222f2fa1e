/** Resolving a speed profile: the global settings, overridden by a rule for the bottle and a rule for the
    executable. */
module Policy {
  import opened Numbers
  import opened Config
  import opened Hotkeys

  const CURRENT_SPEED_PROFILE_VERSION: U32 := 1

  datatype SpeedOverride = SpeedOverride(
    enabled: Option<bool>, initialMultiplier: Option<F64>, startupDurationMs: Option<U32>,
    minMultiplier: Option<F64>, maxMultiplier: Option<F64>, steps: Option<seq<F64>>)

  datatype BottleSpeedRule = BottleSpeedRule(name: string, exclude: bool, speed: SpeedOverride)

  datatype GameSpeedRule = GameSpeedRule(bottle: string, path: string, exclude: bool, speed: SpeedOverride)

  datatype SharedSpeedConfig = SharedSpeedConfig(
    version: U32, speed: SpeedSettings, hotkeys: SpeedHotkeyConfig, bottles: seq<BottleSpeedRule>,
        games: seq<GameSpeedRule>)

  datatype ResolvedSpeed = ResolvedSpeed(settings: SpeedSettings, excluded: bool, matchedBottle: bool,
      matchedGame: bool)

  /** How names and paths become identities; `None` is an invalid one. */
  datatype Identities = Identities(bottle: string -> Option<string>, path: string -> Option<string>)

  function Or<T>(o: Option<T>, otherwise: T): T {
    match o case Some(value) => value case None => otherwise
  }

  function ApplyTo(o: SpeedOverride, s: SpeedSettings): SpeedSettings {
    SpeedSettings(
      Or(o.enabled, s.enabled), Or(o.initialMultiplier, s.initialMultiplier),
          Or(o.startupDurationMs, s.startupDurationMs),
      Or(o.minMultiplier, s.minMultiplier), Or(o.maxMultiplier, s.maxMultiplier), Or(o.steps, s.steps))
  }

  predicate IsBottle(k: Identities, rule: BottleSpeedRule, bottle: string) {
    k.bottle(rule.name) == Some(bottle)
  }

  predicate IsGame(k: Identities, rule: GameSpeedRule, bottle: string, path: string) {
    k.bottle(rule.bottle) == Some(bottle) && k.path(rule.path) == Some(path)
  }

  /** The first rule for a bottle. */
  function FindBottle(k: Identities, rules: seq<BottleSpeedRule>, bottle: string): (r: Option<BottleSpeedRule>)
    ensures r.Some? ==> r.value in rules && IsBottle(k, r.value, bottle)
    ensures r.None? ==> forall i :: 0 <= i < |rules| ==> !IsBottle(k, rules[i], bottle)
  {
    if rules == [] then None
    else if IsBottle(k, rules[0], bottle) then Some(rules[0])
    else FindBottle(k, rules[1..], bottle)
  }

  function FindGame(k: Identities, rules: seq<GameSpeedRule>, bottle: string, path: string): (r: Option<GameSpeedRule>)
    ensures r.Some? ==> r.value in rules && IsGame(k, r.value, bottle, path)
    ensures r.None? ==> forall i :: 0 <= i < |rules| ==> !IsGame(k, rules[i], bottle, path)
  {
    if rules == [] then None
    else if IsGame(k, rules[0], bottle, path) then Some(rules[0])
    else FindGame(k, rules[1..], bottle, path)
  }

  /** The settings of a bottle, before any rule for an executable. */
  function ForBottle(k: Identities, p: SharedSpeedConfig, bottle: string): SpeedSettings {
    match FindBottle(k, p.bottles, bottle)
    case Some(rule) => ApplyTo(rule.speed, p.speed)
    case None => p.speed
  }

  function ForGame(k: Identities, p: SharedSpeedConfig, bottle: string, path: string): SpeedSettings {
    match FindGame(k, p.games, bottle, path)
    case Some(rule) => ApplyTo(rule.speed, ForBottle(k, p, bottle))
    case None => ForBottle(k, p, bottle)
  }

  /** The rule that has the last word on a setting: the one for the executable, then the one for the bottle, then the
      profile. */
  ghost predicate LastWord<T(!new)>(game: Option<T>, bottle: Option<T>, profile: T, result: T) {
    && (game.Some? ==> result == game.value)
    && (game.None? && bottle.Some? ==> result == bottle.value)
    && (game.None? && bottle.None? ==> result == profile)
  }

  const NO_OVERRIDE := SpeedOverride(None, None, None, None, None, None)

  /** Every setting comes from the most specific rule that sets it, each for itself. */
  lemma EverySettingHasItsRule(k: Identities, p: SharedSpeedConfig, bottle: string, path: string)
    ensures var b, g := FindBottle(k, p.bottles, bottle), FindGame(k, p.games, bottle, path);
            var ob := if b.Some? then b.value.speed else NO_OVERRIDE;
            var og := if g.Some? then g.value.speed else NO_OVERRIDE;
            var s := ForGame(k, p, bottle, path);
            && LastWord(og.enabled, ob.enabled, p.speed.enabled, s.enabled)
            && LastWord(og.initialMultiplier, ob.initialMultiplier, p.speed.initialMultiplier, s.initialMultiplier)
            && LastWord(og.startupDurationMs, ob.startupDurationMs, p.speed.startupDurationMs, s.startupDurationMs)
            && LastWord(og.minMultiplier, ob.minMultiplier, p.speed.minMultiplier, s.minMultiplier)
            && LastWord(og.maxMultiplier, ob.maxMultiplier, p.speed.maxMultiplier, s.maxMultiplier)
            && LastWord(og.steps, ob.steps, p.speed.steps, s.steps)
  {
  }

  /** Settings that a session can run with. */
  ghost predicate Usable(p: SharedSpeedConfig, s: SpeedSettings) {
    Validate(s).Ok? && Compilable(p.hotkeys, s)
  }

  // Validation

  ghost predicate BottleRuleFits(k: Identities, p: SharedSpeedConfig, i: nat)
    requires i < |p.bottles|
  {
    && k.bottle(p.bottles[i].name).Some?
    && (forall j :: 0 <= j < i ==> k.bottle(p.bottles[j].name) != k.bottle(p.bottles[i].name))
    && Usable(p, ApplyTo(p.bottles[i].speed, p.speed))
  }

  ghost predicate GameRuleFits(k: Identities, p: SharedSpeedConfig, i: nat)
    requires i < |p.games|
  {
    var bottle := k.bottle(p.games[i].bottle);
    && bottle.Some? && k.path(p.games[i].path).Some?
    && (forall j :: 0 <= j < i ==>
          k.bottle(p.games[j].bottle) != bottle || k.path(p.games[j].path) != k.path(p.games[i].path))
    && Usable(p, ApplyTo(p.games[i].speed, ForBottle(k, p, bottle.value)))
  }

  ghost predicate ValidProfile(k: Identities, p: SharedSpeedConfig) {
    && p.version == CURRENT_SPEED_PROFILE_VERSION && Usable(p, p.speed)
    && (forall i :: 0 <= i < |p.bottles| ==> BottleRuleFits(k, p, i))
    && (forall i :: 0 <= i < |p.games| ==> GameRuleFits(k, p, i))
  }

  method CheckUsable(p: SharedSpeedConfig, s: SpeedSettings) returns (r: Result<(), SpeedProfileError>)
    ensures r.Ok? <==> Usable(p, s)
    ensures r.Err? ==> r.error != InvalidIdentity
  {
    var valid := Validate(s);
    if valid.Err? {
      return valid;
    }
    var compiled := Compile(p.hotkeys, s);
    if compiled.Err? {
      return Err(BadHotkeys(compiled.error));
    }
    return Ok(());
  }

  method ValidateBottles(k: Identities, p: SharedSpeedConfig) returns (r: Result<(), SpeedProfileError>)
    ensures r.Ok? <==> forall i :: 0 <= i < |p.bottles| ==> BottleRuleFits(k, p, i)
  {
    var bottles: set<string> := {};
    for i := 0 to |p.bottles|
      invariant forall j :: 0 <= j < i ==> BottleRuleFits(k, p, j)
      invariant bottles == set j | 0 <= j < i :: Or(k.bottle(p.bottles[j].name), "")
    {
      var identity := k.bottle(p.bottles[i].name);
      if identity.None? {
        assert !BottleRuleFits(k, p, i);
        return Err(InvalidIdentity);
      }
      if identity.value in bottles {
        ghost var j :| 0 <= j < i && Or(k.bottle(p.bottles[j].name), "") == identity.value;
        assert BottleRuleFits(k, p, j) && !BottleRuleFits(k, p, i);
        return Err(DuplicateBottle);
      }
      var usable := CheckUsable(p, ApplyTo(p.bottles[i].speed, p.speed));
      if usable.Err? {
        assert !BottleRuleFits(k, p, i);
        return usable;
      }
      bottles := bottles + {identity.value};
    }
    return Ok(());
  }

  method ValidateGames(k: Identities, p: SharedSpeedConfig) returns (r: Result<(), SpeedProfileError>)
    ensures r.Ok? <==> forall i :: 0 <= i < |p.games| ==> GameRuleFits(k, p, i)
  {
    var games: set<(string, string)> := {};
    for i := 0 to |p.games|
      invariant forall j :: 0 <= j < i ==> GameRuleFits(k, p, j)
      invariant games == set j | 0 <= j < i :: (Or(k.bottle(p.games[j].bottle), ""), Or(k.path(p.games[j].path), ""))
    {
      var bottle, path := k.bottle(p.games[i].bottle), k.path(p.games[i].path);
      if bottle.None? || path.None? {
        assert !GameRuleFits(k, p, i);
        return Err(InvalidIdentity);
      }
      if (bottle.value, path.value) in games {
        ghost var j :| 0 <= j < i && Or(k.bottle(p.games[j].bottle), "") == bottle.value
                       && Or(k.path(p.games[j].path), "") == path.value;
        assert GameRuleFits(k, p, j) && !GameRuleFits(k, p, i);
        return Err(DuplicateExecutable);
      }
      var usable := CheckUsable(p, ApplyTo(p.games[i].speed, ForBottle(k, p, bottle.value)));
      if usable.Err? {
        assert !GameRuleFits(k, p, i);
        return usable;
      }
      games := games + {(bottle.value, path.value)};
    }
    return Ok(());
  }

  method ValidateProfile(k: Identities, p: SharedSpeedConfig) returns (r: Result<(), SpeedProfileError>)
    ensures r.Ok? <==> ValidProfile(k, p)
  {
    if p.version != CURRENT_SPEED_PROFILE_VERSION {
      return Err(UnsupportedVersion);
    }
    r := CheckUsable(p, p.speed);
    if r.Err? {
      return;
    }
    r := ValidateBottles(k, p);
    if r.Err? {
      return;
    }
    r := ValidateGames(k, p);
  }

  // Resolution

  /** Whatever chain of overrides applies, validation has already tried it. */
  lemma EveryChainWasTried(k: Identities, p: SharedSpeedConfig, bottle: string, path: string)
    requires ValidProfile(k, p)
    ensures Usable(p, ForGame(k, p, bottle, path))
  {
    var b := FindBottle(k, p.bottles, bottle);
    if b.Some? {
      var i :| 0 <= i < |p.bottles| && p.bottles[i] == b.value;
      assert BottleRuleFits(k, p, i);
    }
    var g := FindGame(k, p.games, bottle, path);
    if g.Some? {
      var i :| 0 <= i < |p.games| && p.games[i] == g.value;
      assert GameRuleFits(k, p, i);
    }
  }

  /** A rule that names this bottle, or this executable in it, and excludes it. */
  ghost predicate Excludes(k: Identities, p: SharedSpeedConfig, bottle: string, path: string) {
    || (exists i :: 0 <= i < |p.bottles| && IsBottle(k, p.bottles[i], bottle) && p.bottles[i].exclude)
    || (exists i :: 0 <= i < |p.games| && IsGame(k, p.games[i], bottle, path) && p.games[i].exclude)
  }

  lemma OneRuleEach(k: Identities, p: SharedSpeedConfig, bottle: string, path: string)
    requires ValidProfile(k, p)
    ensures forall i :: 0 <= i < |p.bottles| && IsBottle(k, p.bottles[i], bottle) ==>
        FindBottle(k, p.bottles, bottle) == Some(p.bottles[i])
    ensures forall i :: 0 <= i < |p.games| && IsGame(k, p.games[i], bottle, path) ==>
        FindGame(k, p.games, bottle, path) == Some(p.games[i])
  {
    forall i | 0 <= i < |p.bottles| && IsBottle(k, p.bottles[i], bottle)
      ensures FindBottle(k, p.bottles, bottle) == Some(p.bottles[i])
    {
      var j :| 0 <= j < |p.bottles| && p.bottles[j] == FindBottle(k, p.bottles, bottle).value;
      assert BottleRuleFits(k, p, i) && BottleRuleFits(k, p, j);
    }
    forall i | 0 <= i < |p.games| && IsGame(k, p.games[i], bottle, path)
      ensures FindGame(k, p.games, bottle, path) == Some(p.games[i])
    {
      var j :| 0 <= j < |p.games| && p.games[j] == FindGame(k, p.games, bottle, path).value;
      assert GameRuleFits(k, p, i) && GameRuleFits(k, p, j);
    }
  }

  /** Resolution succeeds exactly for valid profiles and well-formed identities; what it returns can be run;
      and whatever is excluded, by either kind of rule, is disabled. */
  method ResolveFor(k: Identities, p: SharedSpeedConfig, bottle: string, path: string)
    returns (r: Result<ResolvedSpeed, SpeedProfileError>)
    ensures r.Ok? <==> ValidProfile(k, p) && k.bottle(bottle).Some? && k.path(path).Some?
    ensures ValidProfile(k, p) && r.Err? ==> r.error == InvalidIdentity
    ensures r.Ok? ==>
              var b, g := k.bottle(bottle).value, k.path(path).value;
              && Usable(p, r.value.settings)
              && (r.value.excluded <==> Excludes(k, p, b, g))
              && r.value.settings == (if r.value.excluded
                  then ForGame(k, p, b, g).(enabled := false) else ForGame(k, p, b, g))
              && (r.value.matchedBottle <==> exists i :: 0 <= i < |p.bottles| && IsBottle(k, p.bottles[i], b))
              && (r.value.matchedGame <==> exists i :: 0 <= i < |p.games| && IsGame(k, p.games[i], b, g))
  {
    var valid := ValidateProfile(k, p);
    if valid.Err? {
      return Err(valid.error);
    }
    var bottleKey, pathKey := k.bottle(bottle), k.path(path);
    if bottleKey.None? || pathKey.None? {
      return Err(InvalidIdentity);
    }
    var matchedBottle := FindBottle(k, p.bottles, bottleKey.value);
    var matchedGame := FindGame(k, p.games, bottleKey.value, pathKey.value);
    OneRuleEach(k, p, bottleKey.value, pathKey.value);
    EveryChainWasTried(k, p, bottleKey.value, pathKey.value);
    var settings := p.speed;
    if matchedBottle.Some? {
      settings := ApplyTo(matchedBottle.value.speed, settings);
    }
    if matchedGame.Some? {
      settings := ApplyTo(matchedGame.value.speed, settings);
    }
    var usable := CheckUsable(p, settings);
    assert usable.Ok?;
    var excluded := (matchedBottle.Some? && matchedBottle.value.exclude)
        || (matchedGame.Some? && matchedGame.value.exclude);
    if excluded {
      settings := settings.(enabled := false);
    }
    return Ok(ResolvedSpeed(settings, excluded, matchedBottle.Some?, matchedGame.Some?));
  }

  /** The profile for a launch carries no overrides, is valid itself, and stays disabled where excluded. */
  method ResolvedLaunchProfile(k: Identities, p: SharedSpeedConfig, bottle: string, path: string)
    returns (r: Result<SharedSpeedConfig, SpeedProfileError>)
    ensures r.Ok? <==> ValidProfile(k, p) && k.bottle(bottle).Some? && k.path(path).Some?
    ensures r.Ok? ==>
              var b, g := k.bottle(bottle).value, k.path(path).value;
              && ValidProfile(k, r.value) && r.value.bottles == [] && r.value.games == []
                  && r.value.hotkeys == p.hotkeys
              && r.value.speed == ForGame(k, p, b, g).(enabled := r.value.speed.enabled)
              && (r.value.speed.enabled <==> ForGame(k, p, b, g).enabled && !Excludes(k, p, b, g))
  {
    var resolved := ResolveFor(k, p, bottle, path);
    if resolved.Err? {
      return Err(resolved.error);
    }
    var result := SharedSpeedConfig(p.version, resolved.value.settings, p.hotkeys, [], []);
    assert Compilable(result.hotkeys, result.speed);
    var valid := ValidateProfile(k, result);
    assert valid.Ok?;
    return Ok(result);
  }
}
