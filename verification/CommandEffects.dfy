/** What passes and commands do in the end: which requests a pass needs, what it leaves in the coprocessor, and how
    a command or a stored configuration takes effect. */
module CommandEffects {
  import opened Bits
  import opened NetConfig
  import opened NvNetwork
  import opened PermitJoinClock
  import opened Framework

  // ---------- Passes ----------

  /** The granted requests that a pass needs behind the check that starts at `e`: the start of the
      coordinator, with five writes before it if it forms, behind three that may fail if it clears first. */
  ghost predicate BringUpGranted(e: Env, check: CheckResult) {
    match check
    case Match => Reliable(e.(clock := e.clock + 2), 1)
    case Empty => Reliable(e.(clock := e.clock + 2), 6)
    case Mismatch => Reliable(e.(clock := e.clock + 5), 6)
  }

  lemma {:induction false} FormingSucceedsIff(fw: Fw, p: Params)
    ensures HandleForming(fw, p).1 <==> Reliable(fw.env, 6)
  {
    WriteAllSucceedsIff(fw.env, FormItems(p.pan, p.channel, p.key));
    var (e1, err) := FormNetwork(fw.env, p.pan, p.channel, p.key);
    if err == EspOk && e1.Answer().Granted? {
      forall k: nat | fw.env.clock <= k < fw.env.clock + 6 ensures fw.env.answers(k) == Granted {
      }
    }
    if Reliable(fw.env, 6) {
      assert fw.env.answers(fw.env.clock + 5) == Granted;
    }
  }

  /** A bring-up succeeds exactly when the requests that it needs are granted. */
  lemma {:induction false} BringUpSucceedsIff(fw: Fw)
    ensures var p := Effective(fw.defaults, fw.file);
            BringUp(fw).1 <==> BringUpGranted(fw.env, CheckNvState(fw.env, p.pan, p.channel).1)
  {
    var p := Effective(fw.defaults, fw.file);
    var (e1, check) := CheckNvState(fw.env, p.pan, p.channel);
    var fw1 := LoadNetConfig(fw).(state := NetworkCheck, env := e1);
    MatchIff(fw.env, p.pan, p.channel);
    match check {
      case Empty => FormingSucceedsIff(fw1, p);
      case Mismatch =>
        WriteEachEffect(e1, CLEAR_ITEMS);
        FormingSucceedsIff(fw1.(state := Reconfiguring, env := WriteEach(e1, CLEAR_ITEMS)), p);
        assert forall k :: WriteEach(e1, CLEAR_ITEMS).answers(k) == fw.env.answers(k);
      case Match =>
        assert e1.Answer().Granted? <==> Reliable(e1, 1);
    }
  }

  /** A pass reaches READY exactly when reset and ping are granted, and behind the two requests that do not
      matter those that its bring-up needs. */
  lemma {:induction false} PassServesIff(fw: Fw)
    requires fw.at.Between?
    ensures var p, e := Effective(fw.defaults, fw.file), fw.env.(clock := fw.env.clock + 4);
            Pass(fw).at.Serving?
            <==> Reliable(fw.env, 2) && BringUpGranted(e, CheckNvState(e, p.pan, p.channel).1)
  {
    var (e1, inited) := ZnpInitRequests(fw.env);
    assert inited <==> Reliable(fw.env, 2) by {
      if Reliable(fw.env, 2) {
        assert fw.env.answers(fw.env.clock) == Granted && fw.env.answers(fw.env.clock + 1) == Granted;
      }
    }
    if inited {
      BringUpSucceedsIff(fw.(state := ZnpInit, env := e1, retry := 0));
    }
  }

  /** A pass that reaches READY and did not find the wanted network leaves the coordinator type, the PAN ID, the
      enabled key and the key of the parameters in force in the coprocessor. */
  lemma {:induction false} PassInstalls(fw: Fw)
    requires Defined(Effective(fw.defaults, fw.file)) && fw.at.Between? && Pass(fw).at.Serving?
    requires var p := Effective(fw.defaults, fw.file); !NvAgrees(fw.env.nv, p.pan, p.channel)
    ensures var p := Effective(fw.defaults, fw.file); Installed(Pass(fw).env.nv, p.pan, p.key)
  {
    var p := Effective(fw.defaults, fw.file);
    PassEffect(fw);
    AllHoldMeansInstalled(Pass(fw).env.nv, p.pan, p.channel, p.key);
  }

  /** So after a pass whose requests succeed the key is installed exactly when the network was not found or the key
      was installed before. */
  lemma {:induction false} InstalledAfterPassIff(fw: Fw)
    requires Defined(Effective(fw.defaults, fw.file)) && fw.at.Between? && Reliable(fw.env, 15)
    ensures var p := Effective(fw.defaults, fw.file);
            Installed(Pass(fw).env.nv, p.pan, p.key)
            <==> !NvAgrees(fw.env.nv, p.pan, p.channel) || Installed(fw.env.nv, p.pan, p.key)
  {
    var p := Effective(fw.defaults, fw.file);
    PassEffect(fw);
    if NvAgrees(fw.env.nv, p.pan, p.channel) {
      PassResumes(fw);
    } else {
      PassInstalls(fw);
    }
  }

  lemma {:induction false} PassLogs(fw: Fw)
    requires fw.at.Between? && Pass(fw).at.Serving?
    ensures Pass(fw).log == fw.log + [NetReady]
  {
  }

  /** A pass whose seven requests succeed and that finds the wanted network writes nothing. */
  lemma {:induction false} ResumesThere(fw: Fw)
    requires fw.at.Between? && Reliable(fw.env, 7)
    requires var p := Effective(fw.defaults, fw.file); Defined(p) && NvAgrees(fw.env.nv, p.pan, p.channel)
    ensures var p, fw' := Effective(fw.defaults, fw.file), Pass(fw);
            && fw'.at.Serving? && fw'.state.Ready? && fw'.log == fw.log + [NetReady]
            && fw'.activePan == p.pan && fw'.activeChannel == p.channel && fw'.env.nv == fw.env.nv
            && Effective(fw'.defaults, fw'.file) == p
  {
    PassEffect(fw);
    PassResumes(fw);
    PassLogs(fw);
  }

  /** Power off and on in READY with a legal channel: a pass whose seven requests succeed is in READY on the same
      network again, and writes nothing. */
  lemma {:induction false} PowerCycleResumes(fw: Fw, up: Fw, again: Fw)
    requires Defined(Effective(fw.defaults, fw.file)) && fw.at.Between?
    requires up == Pass(fw) && up.at.Serving? && 11 <= up.activeChannel <= 26
    requires Reliable(up.env, 7) && again == Pass(Next(up, DoReboot))
    ensures again.at.Serving? && again.state.Ready? && again.log == [NetReady]
    ensures again.activePan == up.activePan && again.activeChannel == up.activeChannel
    ensures again.env.nv == up.env.nv && Effective(again.defaults, again.file) == Effective(up.defaults, up.file)
  {
    PassEffect(fw);
    AgreesMeansCarries(up.env.nv, up.activePan, up.activeChannel);
    ResumesThere(Next(up, DoReboot));
    assert [] + [NetReady] == [NetReady];
  }

  // ---------- Commands ----------

  /** What carrying out any command has in common. */
  lemma {:induction false} CommandTaken(fw: Fw, tick: Tick32)
    requires fw.queue != []
    ensures var cmd, fw' := fw.queue[0], RunCommand(fw, tick);
            && fw'.queue == fw.queue[1..] && fw'.accepted == fw.accepted && fw'.env.nv == fw.env.nv
            && fw'.defaults == fw.defaults && fw'.env.answers == fw.env.answers
            && fw'.log == fw.log + (if cmd.PermitJoin? then [Executed(cmd)] else [Executed(cmd), NetLost])
            && fw'.at == (if cmd.PermitJoin? then fw.at else Between)
            && (!cmd.PermitJoin? ==> fw'.deadline == 0)
  {
    assert fw.log + [Executed(fw.queue[0])] + [NetLost] == fw.log + [Executed(fw.queue[0]), NetLost];
  }

  /** A change of channel ends the READY loop and, if it can be saved, puts the new channel in force; if not,
      it changes nothing. */
  lemma {:induction false} ChangeChannelEffect(fw: Fw, tick: Tick32, c: byte)
    requires fw.queue != [] && fw.queue[0] == ChangeChannel(c) && c != 0
    ensures var fw' := RunCommand(fw, tick);
            && fw'.at == Between
            && (fw.env.Answer().Granted? ==> Effective(fw.defaults, fw'.file).channel == c)
            && (!fw.env.Answer().Granted? ==> fw'.file == fw.file)
  {
    ChangeChannelOnly(fw.defaults, fw.file, c);
  }

  /** The whole way: a granted change to a legal channel, with a file that is absent or was saved, and then a pass
      whose requests succeed. The hub is in READY on the new channel, with the PAN ID it had. */
  lemma {:induction false} ChangeChannelTakesEffect(fw: Fw, tick: Tick32, c: byte)
    requires fw.queue != [] && fw.queue[0] == ChangeChannel(c) && 11 <= c <= 26
    requires fw.file.Absent? || exists cfg :: fw.file == Save(cfg)
    requires Effective(fw.defaults, fw.file).pan != 0 && Reliable(fw.env, 16)
    ensures var p, fw' := Effective(fw.defaults, fw.file), Pass(RunCommand(fw, tick));
            && fw'.at.Serving? && fw'.state.Ready?
            && fw'.activeChannel == c && fw'.activePan == p.pan
            && NvAgrees(fw'.env.nv, p.pan, c)
            && (!NvAgrees(fw.env.nv, p.pan, c) ==> Installed(fw'.env.nv, p.pan, p.key))
  {
    var fw1 := RunCommand(fw, tick);
    assert fw.env.answers(fw.env.clock) == Granted;
    CommandTaken(fw, tick);
    ChangeChannelAfterSave(fw.defaults, fw.file, c);
    NextPassAdopts(fw1);
  }

  /** A pass whose requests succeed puts the parameters in force to work, for a legal channel. */
  lemma {:induction false} NextPassAdopts(fw: Fw)
    requires fw.at.Between? && Reliable(fw.env, 15)
    requires var p := Effective(fw.defaults, fw.file); p.pan != 0 && ValidChannel(p.channel)
    ensures var p, fw' := Effective(fw.defaults, fw.file), Pass(fw);
            && fw'.at.Serving? && fw'.state.Ready?
            && fw'.activePan == p.pan && fw'.activeChannel == p.channel
            && NvAgrees(fw'.env.nv, p.pan, p.channel)
            && (!NvAgrees(fw.env.nv, p.pan, p.channel) ==> Installed(fw'.env.nv, p.pan, p.key))
  {
    var p := Effective(fw.defaults, fw.file);
    Recovers(fw);
    AgreesMeansCarries(Pass(fw).env.nv, p.pan, p.channel);
    if !NvAgrees(fw.env.nv, p.pan, p.channel) {
      PassInstalls(fw);
    }
  }

  /** A permit-join command leaves the hub serving. For fewer than 2^31 ticks from `start` on the reported time
      is then 0 for a duration of 0, 255 for 255, and else the whole seconds left, unless the
      deadline word is 0. */
  lemma {:induction false} PermitJoinEffect(fw: Fw, d: byte, start: nat, now: nat)
    requires fw.queue != [] && fw.queue[0] == PermitJoin(d) && start <= now < start + HALF
    ensures var fw' := RunCommand(fw, start % U32);
            && fw'.at == fw.at && fw'.file == fw.file
            && (d == 0 ==> Ttl(fw'.deadline, now % U32) == 0)
            && (d == 255 ==> Ttl(fw'.deadline, now % U32) == 255)
            && (1 <= d <= 254 && fw'.deadline != 0 ==> Ttl(fw'.deadline, now % U32) == SecondsLeft(start, d, now))
            && (1 <= d <= 254 && fw'.deadline != 0 && now == start ==> d - 1 <= Ttl(fw'.deadline, now % U32) <= d)
  {
    if 1 <= d <= 254 && Deadline(start % U32, d) != 0 {
      TtlExact(start, d, now);
    }
  }

  /** A reconfigure command leaves the READY loop and nothing else. */
  lemma {:induction false} ReconfigureEffect(fw: Fw, tick: Tick32)
    requires fw.queue != [] && fw.queue[0] == Reconfigure
    ensures var fw' := RunCommand(fw, tick);
            fw'.at == Between && fw'.file == fw.file && fw'.env == fw.env && fw'.deadline == 0
  {
  }

  /** An unexpected reset indication leaves the READY loop like a command; queue and file stay, so the next pass
      comes up with the same parameters. */
  lemma {:induction false} ResetIndicationEffect(fw: Fw)
    requires fw.at.Serving?
    ensures Enabled(fw, DoReset)
    ensures var fw' := Next(fw, DoReset);
            && fw'.at == Between && fw'.deadline == 0 && fw'.log == fw.log + [NetLost]
            && fw'.queue == fw.queue && fw'.accepted == fw.accepted && fw'.env == fw.env
            && Effective(fw'.defaults, fw'.file) == Effective(fw.defaults, fw.file)
  {
  }

  // ---------- Asking for something ----------

  /** A command is queued exactly when there is room and a channel in it is one of 11 to 26; otherwise nothing
      happens. */
  lemma {:induction false} AcceptedIff(fw: Fw, cmd: Cmd)
    ensures Submit(fw, cmd).queue == fw.queue + [cmd]
            <==> |fw.queue| < fw.depth && (cmd.ChangeChannel? ==> 11 <= cmd.channel <= 26)
    ensures Submit(fw, cmd) == fw || Submit(fw, cmd).queue == fw.queue + [cmd]
  {
    assert |fw.queue + [cmd]| == |fw.queue| + 1;
  }

  /** New parameters, stored while the hub serves and differs from them, ask for a reconfiguration; else they only
      are stored. */
  lemma {:induction false} ParamSetAsks(fw: Fw, cfg: NetCfg)
    requires |fw.queue| < fw.depth
    ensures ParamSet(fw, cfg, true).file == Save(cfg) && ParamSet(fw, cfg, false) == fw
    ensures ParamSet(fw, cfg, true).queue
            == fw.queue + (if fw.state.Ready? && !(cfg.pan == fw.activePan && cfg.channel == fw.activeChannel)
                           then [Reconfigure] else [])
  {
  }

  /** The whole way: parameters with a PAN ID and a legal channel are stored while the hub serves on others and has
      nothing else to do; then it takes its command, and a pass whose requests succeed follows. The hub
      is in READY with these parameters. */
  lemma {:induction false} ParamSetTakesEffect(fw: Fw, cfg: NetCfg, tick: Tick32)
    requires fw.at.Serving? && fw.state.Ready? && fw.queue == [] && fw.depth > 0
    requires cfg.pan != 0 && 11 <= cfg.channel <= 26
    requires cfg.pan != fw.activePan || cfg.channel != fw.activeChannel
    requires Reliable(fw.env, 15)
    ensures var fw1 := ParamSet(fw, cfg, true);
            && Enabled(fw1, DoCommand(tick)) && RunCommand(fw1, tick).at.Between?
            && var fw' := Pass(RunCommand(fw1, tick));
               && fw'.at.Serving? && fw'.state.Ready?
               && fw'.activePan == cfg.pan && fw'.activeChannel == cfg.channel
               && NvAgrees(fw'.env.nv, cfg.pan, cfg.channel)
               && (cfg.key != ZERO_KEY && !NvAgrees(fw.env.nv, cfg.pan, cfg.channel) ==>
                     Installed(fw'.env.nv, cfg.pan, cfg.key))
  {
    var fw1 := ParamSet(fw, cfg, true);
    ParamSetAsks(fw, cfg);
    assert fw1.queue[0] == Reconfigure;
    ReconfigureEffect(fw1, tick);
    EffectiveSaved(fw.defaults, cfg);
    NextPassAdopts(RunCommand(fw1, tick));
  }
}
