/** The life cycle of the hub: bring-up passes with retries, the READY loop with its command queue,
    and what the rest of the system and the power switch may do in between. */
module Framework {
  import opened Bits
  import opened NetConfig
  import opened NvNetwork
  import opened PermitJoinClock

  const MAX_INIT_RETRIES: nat := 5

  datatype ZbState = Uninitialized | ZnpInit | NetworkCheck | Forming | Reconfiguring | Ready

  datatype Cmd = PermitJoin(duration: byte) | ChangeChannel(channel: byte) | Reconfigure

  /** What the framework does that others can see: its two network events and the commands. */
  datatype Entry = NetReady | NetLost | Executed(cmd: Cmd)

  /** Where the task stands: between two passes, at a point inside a pass, or in its READY loop. The
      parameters are the ones that the task keeps in its locals during a pass. */
  datatype Place =
    | Between
    | Initialised
    | Checked(params: Params, check: CheckResult)
    | Written(params: Params, formed: bool)
    | Started(params: Params)
    | Settled
    | Serving

  /** `accepted` is the history of the command queue. The compiled-in parameters and the queue depth
      never change. */
  datatype Fw = Fw(
    defaults: Params, baud: nat, depth: nat,
    state: ZbState, at: Place, halted: bool, retry: nat,
    activePan: nat, activeChannel: nat, deadline: Tick32,
    file: ConfigFile, env: Env,
    queue: seq<Cmd>, accepted: seq<Cmd>, log: seq<Entry>)

  // ---------- The handlers of a pass ----------

  /** Reset and ping decide; version and endpoint registration may fail. */
  function ZnpInitRequests(e: Env): (Env, bool) {
    if !e.Answer().Granted? then (e.Tick(), false)
    else if !e.Tick().Answer().Granted? then (e.Tick().Tick(), false)
    else (e.Tick().Tick().Tick().Tick(), true)
  }

  /** Load the parameters and remember them as the active ones. */
  function LoadNetConfig(fw: Fw): Fw {
    var p := Effective(fw.defaults, fw.file);
    fw.(activePan := p.pan, activeChannel := p.channel)
  }

  function SaveNetConfig(fw: Fw, p: Params): Fw {
    fw.(env := fw.env.Tick(),
        file := if fw.env.Answer().Granted? then Save(NetCfg(p.pan, p.channel, p.key, fw.baud)) else fw.file)
  }

  /** Write the parameters, start the coordinator, save the configuration. */
  function HandleForming(fw: Fw, p: Params): (Fw, bool) {
    var (e1, err) := FormNetwork(fw.env, p.pan, p.channel, p.key);
    var fw1 := fw.(state := Forming, env := e1);
    if err != EspOk then (fw1, false)
    else if !e1.Answer().Granted? then (fw1.(env := e1.Tick()), false)
    else (SaveNetConfig(fw1.(env := e1.Tick()), p), true)
  }

  function HandleReconfiguring(fw: Fw, p: Params): (Fw, bool) {
    HandleForming(fw.(state := Reconfiguring, env := WriteEach(fw.env, CLEAR_ITEMS)), p)
  }

  function HandleResume(fw: Fw): (Fw, bool) {
    (fw.(state := Forming, env := fw.env.Tick()), fw.env.Answer().Granted?)
  }

  /** From the network check to the started coordinator. */
  function BringUp(fw: Fw): (Fw, bool) {
    var p := Effective(fw.defaults, fw.file);
    var (e1, check) := CheckNvState(fw.env, p.pan, p.channel);
    var fw1 := LoadNetConfig(fw).(state := NetworkCheck, env := e1);
    match check
    case Empty => HandleForming(fw1, p)
    case Mismatch => HandleReconfiguring(fw1, p)
    case Match => HandleResume(fw1)
  }

  function CountRetry(fw: Fw): Fw {
    fw.(at := Between, retry := fw.retry + 1, halted := fw.retry + 1 > MAX_INIT_RETRIES)
  }

  function EnterReady(fw: Fw): Fw {
    fw.(retry := 0, state := Ready, at := Serving, log := fw.log + [NetReady])
  }

  /** One turn of the framework loop up to the READY loop, with nobody in between. */
  function Pass(fw: Fw): Fw {
    var (e1, inited) := ZnpInitRequests(fw.env);
    var fw1 := fw.(state := ZnpInit, env := e1);
    if !inited then CountRetry(fw1)
    else
      var (fw2, up) := BringUp(fw1.(retry := 0));
      if !up then CountRetry(fw2) else EnterReady(fw2)
  }

  // ---------- The same pass in steps ----------

  /** Points that the task still has to go through. */
  function Left(at: Place): nat {
    match at
    case Initialised => 5
    case Checked(_, _) => 4
    case Written(_, _) => 3
    case Started(_) => 2
    case Settled => 1
    case _ => 0
  }

  function InitStep(fw: Fw): Fw {
    var (e1, inited) := ZnpInitRequests(fw.env);
    var fw1 := fw.(state := ZnpInit, env := e1);
    if inited then fw1.(retry := 0, at := Initialised) else CountRetry(fw1)
  }

  function CheckStep(fw: Fw): Fw {
    var p := Effective(fw.defaults, fw.file);
    var (e1, check) := CheckNvState(fw.env, p.pan, p.channel);
    LoadNetConfig(fw).(state := NetworkCheck, env := e1, at := Checked(p, check))
  }

  function WriteStep(fw: Fw, p: Params, check: CheckResult): Fw {
    if check.Match? then fw.(state := Forming, at := Written(p, false))
    else
      var (e1, err) := FormNetwork(if check.Mismatch? then WriteEach(fw.env, CLEAR_ITEMS) else fw.env,
                                   p.pan, p.channel, p.key);
      var fw1 := fw.(state := Forming, env := e1);
      if err != EspOk then CountRetry(fw1) else fw1.(at := Written(p, true))
  }

  function StartStep(fw: Fw, p: Params, formed: bool): Fw {
    var fw1 := fw.(env := fw.env.Tick());
    if !fw.env.Answer().Granted? then CountRetry(fw1) else fw1.(at := if formed then Started(p) else Settled)
  }

  /** What the task does up to the next point where others may change the configuration. */
  function Step(fw: Fw): (fw': Fw)
    requires !fw.at.Serving?
    ensures Left(fw.at) > 0 ==> Left(fw'.at) < Left(fw.at)
  {
    match fw.at
    case Between => InitStep(fw)
    case Initialised => CheckStep(fw)
    case Checked(p, check) => WriteStep(fw, p, check)
    case Written(p, formed) => StartStep(fw, p, formed)
    case Started(p) => SaveNetConfig(fw, p).(at := Settled)
    case Settled => EnterReady(fw)
  }

  /** The rest of a pass with nobody in between. */
  function Finish(fw: Fw): Fw
    decreases Left(fw.at)
  {
    if Left(fw.at) == 0 then fw else Finish(Step(fw))
  }

  lemma {:induction false} FinishStarted(fw: Fw, p: Params)
    requires fw.at == Started(p)
    ensures Finish(fw) == EnterReady(SaveNetConfig(fw, p))
  {
    var fw1 := Step(fw);
    assert Finish(fw) == Finish(fw1) == Finish(Step(fw1));
    assert Step(fw1) == EnterReady(SaveNetConfig(fw, p));
  }

  lemma {:induction false} FinishWritten(fw: Fw, p: Params, formed: bool)
    requires fw.at == Written(p, formed)
    ensures var fw1 := fw.(env := fw.env.Tick());
            Finish(fw) == if !fw.env.Answer().Granted? then CountRetry(fw1)
                          else EnterReady(if formed then SaveNetConfig(fw1, p) else fw1)
  {
    var fw1 := Step(fw);
    assert Finish(fw) == Finish(fw1);
    if fw1.at.Started? {
      FinishStarted(fw1, p);
    } else if fw1.at.Settled? {
      assert Finish(fw1) == Finish(Step(fw1)) == Step(fw1);
    }
  }

  lemma {:induction false} FinishChecked(fw: Fw, p: Params, check: CheckResult)
    requires fw.at == Checked(p, check)
    ensures var (fw', up) := match check
                             case Empty => HandleForming(fw, p)
                             case Mismatch => HandleReconfiguring(fw, p)
                             case Match => HandleResume(fw);
            Finish(fw) == if up then EnterReady(fw') else CountRetry(fw')
  {
    var fw1 := Step(fw);
    assert Finish(fw) == Finish(fw1);
    if fw1.at.Written? {
      FinishWritten(fw1, p, !check.Match?);
    }
  }

  lemma {:induction false} HandlersIgnorePlace(fw: Fw, p: Params, at: Place)
    ensures HandleForming(fw.(at := at), p) == (HandleForming(fw, p).0.(at := at), HandleForming(fw, p).1)
    ensures HandleReconfiguring(fw.(at := at), p)
            == (HandleReconfiguring(fw, p).0.(at := at), HandleReconfiguring(fw, p).1)
    ensures HandleResume(fw.(at := at)) == (HandleResume(fw).0.(at := at), HandleResume(fw).1)
  {
  }

  lemma {:induction false} FinishInitialised(fw: Fw)
    requires fw.at.Initialised?
    ensures var (fw', up) := BringUp(fw);
            Finish(fw) == if up then EnterReady(fw') else CountRetry(fw')
  {
    var p := Effective(fw.defaults, fw.file);
    var (e1, check) := CheckNvState(fw.env, p.pan, p.channel);
    var fw1 := LoadNetConfig(fw).(state := NetworkCheck, env := e1);
    assert Step(fw) == fw1.(at := Checked(p, check));
    assert Finish(fw) == Finish(Step(fw));
    FinishChecked(Step(fw), p, check);
    HandlersIgnorePlace(fw1, p, Checked(p, check));
  }

  lemma {:induction false} BringUpIgnoresPlace(fw: Fw, at: Place)
    ensures BringUp(fw.(at := at)) == (BringUp(fw).0.(at := at), BringUp(fw).1)
  {
    var p := Effective(fw.defaults, fw.file);
    var (e1, check) := CheckNvState(fw.env, p.pan, p.channel);
    HandlersIgnorePlace(LoadNetConfig(fw).(state := NetworkCheck, env := e1), p, at);
  }

  /** A pass that nobody interrupts is the same as its steps in a row. */
  lemma {:induction false} PassIsSteps(fw: Fw)
    requires fw.at.Between?
    ensures Pass(fw) == Finish(Step(fw))
  {
    var (e1, inited) := ZnpInitRequests(fw.env);
    if inited {
      FinishInitialised(Step(fw));
      BringUpIgnoresPlace(fw.(state := ZnpInit, env := e1, retry := 0), Initialised);
    }
  }

  // ---------- The READY loop ----------

  function LeaveReady(fw: Fw): Fw {
    fw.(deadline := 0, at := Between, log := fw.log + [NetLost])
  }

  /** Take the next command and carry it out; two kinds of command end the READY loop. */
  function RunCommand(fw: Fw, tick: Tick32): Fw
    requires fw.queue != []
  {
    var cmd := fw.queue[0];
    var fw1 := fw.(queue := fw.queue[1..], log := fw.log + [Executed(cmd)], env := fw.env.Tick());
    match cmd
    case PermitJoin(duration) => fw1.(deadline := Deadline(tick, duration))
    case ChangeChannel(channel) =>
      LeaveReady(fw1.(file := if fw.env.Answer().Granted? then WithChannel(fw.file, channel) else fw.file))
    case Reconfigure => LeaveReady(fw1.(env := fw.env))
  }

  /** A permit-join command has the same effect whatever the coprocessor answers, even when it refuses. */
  lemma {:induction false} PermitJoinIgnoresAnswer(fw: Fw, tick: Tick32, other: nat -> Answer)
    requires fw.queue != [] && fw.queue[0].PermitJoin?
    ensures var fw', fw'' := RunCommand(fw, tick), RunCommand(fw.(env := fw.env.(answers := other)), tick);
            fw'' == fw'.(env := fw''.env) && Ttl(fw''.deadline, tick) == Ttl(fw'.deadline, tick)
  {
  }

  // ---------- The rest of the system ----------

  /** The command API: a channel outside 11 to 26 and a full queue are refused. */
  predicate Accepts(fw: Fw, cmd: Cmd) {
    |fw.queue| < fw.depth && (cmd.ChangeChannel? ==> ValidChannel(cmd.channel))
  }

  function Submit(fw: Fw, cmd: Cmd): Fw {
    if Accepts(fw, cmd) then fw.(queue := fw.queue + [cmd], accepted := fw.accepted + [cmd]) else fw
  }

  /** Store new parameters and, in state READY, ask for a reconfiguration when they differ. */
  function ParamSet(fw: Fw, cfg: NetCfg, saved: bool): Fw {
    if !saved then fw
    else
      var fw1 := fw.(file := Save(cfg));
      if fw.state.Ready? && (cfg.pan != fw.activePan || cfg.channel != fw.activeChannel) then
        Submit(fw1, Reconfigure)
      else fw1
  }

  /** Power off and on: files and coprocessor items survive. */
  function Reboot(fw: Fw): Fw {
    fw.(state := Uninitialized, at := Between, halted := false, retry := 0,
        activePan := 0, activeChannel := 0, deadline := 0, queue := [], accepted := [], log := [])
  }

  datatype Event =
    | DoStep
    | DoCommand(tick: Tick32)
    | DoReset
    | DoSubmit(cmd: Cmd)
    | DoParamSet(cfg: NetCfg, saved: bool)
    | DoReboot

  predicate Enabled(fw: Fw, ev: Event) {
    match ev
    case DoStep => !fw.at.Serving? && !fw.halted
    case DoCommand(_) => fw.at.Serving? && fw.queue != []
    case DoReset => fw.at.Serving?
    case _ => true
  }

  function Next(fw: Fw, ev: Event): Fw
    requires Enabled(fw, ev)
  {
    match ev
    case DoStep => Step(fw)
    case DoCommand(tick) => RunCommand(fw, tick)
    case DoReset => LeaveReady(fw)
    case DoSubmit(cmd) => Submit(fw, cmd)
    case DoParamSet(cfg, saved) => ParamSet(fw, cfg, saved)
    case DoReboot => Reboot(fw)
  }

  ghost predicate Possible(fw: Fw, run: seq<Event>)
    decreases |run|
  {
    run == [] || (Enabled(fw, run[0]) && Possible(Next(fw, run[0]), run[1..]))
  }

  function Exec(fw: Fw, run: seq<Event>): Fw
    requires Possible(fw, run)
    decreases |run|
  {
    if run == [] then fw else Exec(Next(fw, run[0]), run[1..])
  }

  /** The task at power-on, with any coprocessor contents and any configuration file. */
  ghost predicate PowerOn(fw: Fw) {
    fw == Reboot(fw)
  }

  // ---------- READY means agreement ----------

  /** Parameters for which the channel mask, a 32-bit shift, is defined. */
  predicate Defined(p: Params) {
    p.pan != 0 && 0 < p.channel < 32
  }

  /** All channels that are stored meanwhile are below 32. */
  predicate SmallChannels(run: seq<Event>) {
    forall i :: 0 <= i < |run| && run[i].DoParamSet? ==> run[i].cfg.channel < 32
  }

  ghost predicate ConfigInv(fw: Fw) {
    && Defined(fw.defaults)
    && Defined(Effective(fw.defaults, fw.file))
    && (forall i :: 0 <= i < |fw.queue| ==> fw.queue[i].ChangeChannel? ==> ValidChannel(fw.queue[i].channel))
  }

  predicate Carries(fw: Fw, p: Params) {
    && Defined(p) && NvCarries(fw.env.nv, p.pan, p.channel)
    && fw.activePan == p.pan && fw.activeChannel == p.channel
  }

  /** What each point of a pass relies on. */
  predicate PlaceInv(fw: Fw) {
    match fw.at
    case Checked(p, check) =>
      && Defined(p) && fw.activePan == p.pan && fw.activeChannel == p.channel
      && (check.Match? ==> Carries(fw, p))
    case Written(p, _) => Carries(fw, p)
    case Started(p) => Carries(fw, p)
    case Settled => NvCarries(fw.env.nv, fw.activePan, fw.activeChannel)
    case Serving => fw.state.Ready?
    case _ => true
  }

  predicate ReadyInv(fw: Fw) {
    && PlaceInv(fw)
    && (fw.state.Ready? ==> Left(fw.at) == 0 && NvCarries(fw.env.nv, fw.activePan, fw.activeChannel))
  }

  ghost predicate Inv(fw: Fw) {
    ConfigInv(fw) && ReadyInv(fw)
  }

  lemma {:induction false} SavedIsDefined(d: Params, cfg: NetCfg)
    requires Defined(d) && cfg.channel < 32
    ensures Defined(Effective(d, Save(cfg)))
  {
    EffectiveSaved(d, cfg);
  }

  lemma {:induction false} CheckStepInv(fw: Fw)
    requires Inv(fw) && fw.at.Initialised?
    ensures Inv(Step(fw))
  {
    var p := Effective(fw.defaults, fw.file);
    MatchIff(fw.env, p.pan, p.channel);
    if CheckNvState(fw.env, p.pan, p.channel).1 == Match {
      MatchMeansAgreement(fw.env, p.pan, p.channel);
      AgreesMeansCarries(fw.env.nv, p.pan, p.channel);
    }
  }

  lemma {:induction false} WriteStepInv(fw: Fw)
    requires Inv(fw) && fw.at.Checked?
    ensures Inv(Step(fw))
  {
    var p := fw.at.params;
    if fw.at.check.Mismatch? {
      FormNetworkEffect(WriteEach(fw.env, CLEAR_ITEMS), p.pan, p.channel, p.key);
    } else if fw.at.check.Empty? {
      FormNetworkEffect(fw.env, p.pan, p.channel, p.key);
    }
  }

  lemma {:induction false} SaveStepInv(fw: Fw)
    requires Inv(fw) && fw.at.Started?
    ensures Inv(Step(fw))
  {
    var p := fw.at.params;
    SavedIsDefined(fw.defaults, NetCfg(p.pan, p.channel, p.key, fw.baud));
  }

  lemma {:induction false} StepInv(fw: Fw)
    requires Inv(fw) && !fw.at.Serving?
    ensures Inv(Step(fw))
  {
    match fw.at {
      case Initialised => CheckStepInv(fw);
      case Checked(_, _) => WriteStepInv(fw);
      case Started(_) => SaveStepInv(fw);
      case _ =>
    }
  }

  lemma {:induction false} CommandInv(fw: Fw, tick: Tick32)
    requires Inv(fw) && Enabled(fw, DoCommand(tick))
    ensures Inv(RunCommand(fw, tick))
  {
    assert fw.queue[0].ChangeChannel? ==> ValidChannel(fw.queue[0].channel);
    forall i | 0 <= i < |fw.queue[1..]|
      ensures fw.queue[1..][i].ChangeChannel? ==> ValidChannel(fw.queue[1..][i].channel)
    {
      assert fw.queue[1..][i] == fw.queue[i + 1];
    }
    if fw.queue[0].ChangeChannel? {
      var (_, stored) := Load(fw.file, ZERO_CFG);
      SavedIsDefined(fw.defaults, stored.(channel := fw.queue[0].channel));
    }
  }

  lemma {:induction false} SubmitInv(fw: Fw, cmd: Cmd)
    requires Inv(fw)
    ensures Inv(Submit(fw, cmd))
  {
  }

  lemma {:induction false} ParamSetInv(fw: Fw, cfg: NetCfg, saved: bool)
    requires Inv(fw) && cfg.channel < 32
    ensures Inv(ParamSet(fw, cfg, saved))
  {
    SavedIsDefined(fw.defaults, cfg);
    SubmitInv(fw.(file := Save(cfg)), Reconfigure);
  }

  lemma {:induction false} InvStep(fw: Fw, ev: Event)
    requires Inv(fw) && Enabled(fw, ev) && (ev.DoParamSet? ==> ev.cfg.channel < 32)
    ensures Inv(Next(fw, ev))
  {
    match ev {
      case DoStep => StepInv(fw);
      case DoCommand(tick) => CommandInv(fw, tick);
      case DoParamSet(cfg, saved) => ParamSetInv(fw, cfg, saved);
      case DoReset => assert Inv(LeaveReady(fw));
      case DoSubmit(cmd) => SubmitInv(fw, cmd);
      case DoReboot => assert Inv(Reboot(fw));
    }
  }

  lemma {:induction false} InvRun(fw: Fw, run: seq<Event>)
    requires Inv(fw) && Possible(fw, run) && SmallChannels(run)
    ensures Inv(Exec(fw, run))
    decreases |run|
  {
    if run != [] {
      InvStep(fw, run[0]);
      assert forall i :: 0 <= i < |run[1..]| ==> run[1..][i] == run[i + 1];
      InvRun(Next(fw, run[0]), run[1..]);
    }
  }

  /** In every run with any failures, commands and power cycles, and configuration writes at any moment:
      whenever the state is READY, the coprocessor's PAN ID is the active one, and its lowest
      channel is the active one exactly when that is a legal channel. */
  lemma {:induction false} ReadyMeansAgreement(fw: Fw, run: seq<Event>)
    requires PowerOn(fw) && Defined(fw.defaults) && Defined(Effective(fw.defaults, fw.file))
    requires Possible(fw, run) && SmallChannels(run) && Exec(fw, run).state.Ready?
    ensures var fw' := Exec(fw, run); NvCarries(fw'.env.nv, fw'.activePan, fw'.activeChannel)
  {
    InvRun(fw, run);
  }

  // ---------- Recovery ----------

  /** A formation that succeeds leaves the coprocessor with the parameters and the file with the
      same effective parameters. */
  lemma {:induction false} FormingEffect(fw: Fw, p: Params)
    requires Defined(p) && p == Effective(fw.defaults, fw.file)
    ensures var (fw', up) := HandleForming(fw, p);
            && (up ==> NvCarries(fw'.env.nv, p.pan, p.channel))
            && (up ==> AllHold(fw'.env.nv, FormItems(p.pan, p.channel, p.key)))
            && Effective(fw.defaults, fw'.file) == p
            && fw' == fw.(state := Forming, env := fw'.env, file := fw'.file)
            && (Reliable(fw.env, 6) ==> up)
  {
    FormNetworkEffect(fw.env, p.pan, p.channel, p.key);
    EffectiveFixpoint(fw.defaults, fw.file, fw.baud);
  }

  lemma {:induction false} ReconfiguringEffect(fw: Fw, p: Params)
    requires Defined(p) && p == Effective(fw.defaults, fw.file)
    ensures var (fw', up) := HandleReconfiguring(fw, p);
            && (up ==> NvCarries(fw'.env.nv, p.pan, p.channel))
            && (up ==> AllHold(fw'.env.nv, FormItems(p.pan, p.channel, p.key)))
            && Effective(fw.defaults, fw'.file) == p
            && fw' == fw.(state := Forming, env := fw'.env, file := fw'.file)
            && (Reliable(fw.env, 9) ==> up)
  {
    WriteEachEffect(fw.env, CLEAR_ITEMS);
    FormingEffect(fw.(state := Reconfiguring, env := WriteEach(fw.env, CLEAR_ITEMS)), p);
  }

  /** Whatever fails on the way: a bring-up that reports success ends with the parameters in force in
      the coprocessor, and never changes which parameters are in force. Unless the coprocessor was in
      agreement before, all five items hold the wanted values. */
  lemma {:induction false} BringUpEffect(fw: Fw)
    requires Defined(Effective(fw.defaults, fw.file))
    ensures var p := Effective(fw.defaults, fw.file);
            var (fw', up) := BringUp(fw);
            && (up ==> NvCarries(fw'.env.nv, p.pan, p.channel))
            && (up ==> NvAgrees(fw.env.nv, p.pan, p.channel)
                       || AllHold(fw'.env.nv, FormItems(p.pan, p.channel, p.key)))
            && Effective(fw.defaults, fw'.file) == p
            && fw' == fw.(state := Forming, activePan := p.pan, activeChannel := p.channel,
                          env := fw'.env, file := fw'.file)
            && (Reliable(fw.env, 11) ==> up)
  {
    var p := Effective(fw.defaults, fw.file);
    var (e1, check) := CheckNvState(fw.env, p.pan, p.channel);
    var fw1 := LoadNetConfig(fw).(state := NetworkCheck, env := e1);
    MatchIff(fw.env, p.pan, p.channel);
    match check {
      case Empty => FormingEffect(fw1, p);
      case Mismatch => ReconfiguringEffect(fw1, p);
      case Match =>
        MatchMeansAgreement(fw.env, p.pan, p.channel);
        AgreesMeansCarries(fw.env.nv, p.pan, p.channel);
    }
  }

  lemma {:induction false} PassEffect(fw: Fw)
    requires Defined(Effective(fw.defaults, fw.file))
    ensures var p := Effective(fw.defaults, fw.file);
            var fw' := Pass(fw);
            && Effective(fw.defaults, fw'.file) == p && fw'.defaults == fw.defaults
            && (fw'.at.Serving? && !fw.at.Serving? ==>
                  && fw'.state.Ready? && fw'.retry == 0
                  && fw'.activePan == p.pan && fw'.activeChannel == p.channel
                  && NvCarries(fw'.env.nv, p.pan, p.channel)
                  && (NvAgrees(fw.env.nv, p.pan, p.channel)
                      || AllHold(fw'.env.nv, FormItems(p.pan, p.channel, p.key))))
            && (Reliable(fw.env, 15) ==> fw'.at.Serving?)
  {
    var (e1, inited) := ZnpInitRequests(fw.env);
    if inited {
      BringUpEffect(fw.(state := ZnpInit, env := e1, retry := 0));
    }
  }

  /** From whatever an earlier pass, a crash or another program left in the coprocessor, one pass
      whose own requests succeed reaches READY with the parameters in force. Afterwards all five items
      hold the wanted values exactly when PAN ID and channel did not agree before, or they all held before. */
  lemma {:induction false} Recovers(fw: Fw)
    requires Defined(Effective(fw.defaults, fw.file)) && fw.at.Between? && Reliable(fw.env, 15)
    ensures var p := Effective(fw.defaults, fw.file);
            var fw' := Pass(fw);
            && fw'.at.Serving? && fw'.state.Ready? && fw'.retry == 0
            && fw'.activePan == p.pan && fw'.activeChannel == p.channel
            && NvCarries(fw'.env.nv, p.pan, p.channel)
            && (AllHold(fw'.env.nv, FormItems(p.pan, p.channel, p.key)) <==>
                  !NvAgrees(fw.env.nv, p.pan, p.channel) || AllHold(fw.env.nv, FormItems(p.pan, p.channel, p.key)))
  {
    PassEffect(fw);
    var p := Effective(fw.defaults, fw.file);
    if NvAgrees(fw.env.nv, p.pan, p.channel) {
      PassResumes(fw);
    }
  }

  /** A pass that finds the coprocessor in agreement changes nothing there. */
  lemma {:induction false} PassResumes(fw: Fw)
    requires fw.at.Between? && Reliable(fw.env, 7)
    requires var p := Effective(fw.defaults, fw.file); NvAgrees(fw.env.nv, p.pan, p.channel)
    ensures Pass(fw).at.Serving? && Pass(fw).state.Ready? && Pass(fw).env.nv == fw.env.nv
  {
    var p := Effective(fw.defaults, fw.file);
    var (e1, inited) := ZnpInitRequests(fw.env);
    CheckWithoutFailures(e1, p.pan, p.channel);
    MatchIff(e1, p.pan, p.channel);
  }

  /** Empty items, and only the fourth of the five writes of the first pass is refused. */
  ghost predicate FourthWriteRefused(e: Env) {
    && e.nv == map[] && e.answers(e.clock + 9) == Denied
    && forall k: nat :: e.clock <= k < e.clock + 17 && k != e.clock + 9 ==> e.answers(k) == Answer.Granted
  }

  lemma {:induction false} FourWrites(e: Env, pan: Word16, channel: nat, key: NwkKey)
    requires e.nv == map[] && e.answers(e.clock) == e.answers(e.clock + 1) == e.answers(e.clock + 2) == Answer.Granted
    requires e.answers(e.clock + 3) == Denied
    ensures var (e', err) := FormNetwork(e, pan, channel, key);
            && err == Fail && e'.answers == e.answers && e'.clock == e.clock + 4
            && e'.nv == map[NV_LOGICAL_TYPE := [COORDINATOR], NV_PANID := ToLittleEndian(pan, 2),
                            NV_CHANLIST := ToLittleEndian(Pow2(channel), 4)]
  {
    var items := FormItems(pan, channel, key);
    var nv1: Nv := map[NV_LOGICAL_TYPE := [COORDINATOR]];
    var nv2 := nv1[NV_PANID := ToLittleEndian(pan, 2)];
    var nv3 := nv2[NV_CHANLIST := ToLittleEndian(Pow2(channel), 4)];
    FreshItem(e.nv, NV_LOGICAL_TYPE, [COORDINATOR]);
    FreshItem(nv1, NV_PANID, ToLittleEndian(pan, 2));
    FreshItem(nv2, NV_CHANLIST, ToLittleEndian(Pow2(channel), 4));
    WriteAllStep(e, items);
    WriteAllStep(Env(nv1, e.answers, e.clock + 1), items[1..]);
    WriteAllStep(Env(nv2, e.answers, e.clock + 2), items[1..][1..]);
    WriteAllStep(Env(nv3, e.answers, e.clock + 3), items[1..][1..][1..]);
  }

  lemma {:induction false} FreshItem(nv: Nv, id: nat, data: seq<byte>)
    requires id !in nv
    ensures Put(nv, id, data) == nv[id := data]
  {
    assert data + [] == data;
  }

  lemma {:induction false} PartlyFormedAgrees(pan: Word16, channel: nat)
    requires ValidChannel(channel)
    ensures NvAgrees(map[NV_LOGICAL_TYPE := [COORDINATOR], NV_PANID := ToLittleEndian(pan, 2),
                         NV_CHANLIST := ToLittleEndian(Pow2(channel), 4)], pan, channel)
  {
    ReadBack(pan, channel);
  }

  /** What recovery misses: when the first formation breaks off before the key, the next pass finds the
      PAN ID and the channel in place and goes to READY, and the key is never written. */
  lemma {:induction false} KeyNeverWritten(fw: Fw)
    requires PowerOn(fw) && FourthWriteRefused(fw.env)
    requires ValidChannel(Effective(fw.defaults, fw.file).channel)
    ensures var fw1 := Pass(fw);
            var fw2 := Pass(fw1);
            && fw1.at.Between? && !fw1.halted
            && fw2.at.Serving? && fw2.state.Ready?
            && NV_PRECFGKEYS_EN !in fw2.env.nv && NV_PRECFGKEY !in fw2.env.nv
  {
    var p := Effective(fw.defaults, fw.file);
    FirstPassBreaksOff(fw);
    PartlyFormedAgrees(p.pan, p.channel);
    PassResumes(Pass(fw));
  }

  lemma {:induction false} FirstPassBreaksOff(fw: Fw)
    requires PowerOn(fw) && FourthWriteRefused(fw.env)
    ensures var p, fw1 := Effective(fw.defaults, fw.file), Pass(fw);
            && fw1.at.Between? && !fw1.halted && fw1.file == fw.file && fw1.defaults == fw.defaults
            && Reliable(fw1.env, 7)
            && fw1.env.nv == map[NV_LOGICAL_TYPE := [COORDINATOR], NV_PANID := ToLittleEndian(p.pan, 2),
                                 NV_CHANLIST := ToLittleEndian(Pow2(p.channel), 4)]
  {
    var p := Effective(fw.defaults, fw.file);
    var (e1, inited) := ZnpInitRequests(fw.env);
    assert inited && e1 == fw.env.(clock := fw.env.clock + 4);
    CheckWithoutFailures(e1, p.pan, p.channel);
    MatchIff(e1, p.pan, p.channel);
    FourWrites(e1.Tick().Tick(), p.pan, p.channel, p.key);
  }

  /** After any pass that reached READY, and as long as nobody touches the file or the coprocessor, a
      check whose two reads succeed chooses to resume exactly when the channel is a legal one; else it
      reconfigures every time. Resuming writes nothing. */
  lemma {:induction false} ResumesAfterReady(fw: Fw, later: Fw)
    requires Defined(Effective(fw.defaults, fw.file)) && fw.at.Between? && Pass(fw).at.Serving?
    requires later.defaults == fw.defaults && later.file == Pass(fw).file && later.env.nv == Pass(fw).env.nv
    requires Reliable(later.env, 3)
    ensures var p := Effective(later.defaults, later.file);
            && CheckNvState(later.env, p.pan, p.channel).1 == (if ValidChannel(p.channel) then Match else Mismatch)
            && (ValidChannel(p.channel) ==>
                  BringUp(later).1 && BringUp(later).0.env.nv == later.env.nv && BringUp(later).0.file == later.file)
  {
    PassEffect(fw);
    var p := Effective(later.defaults, later.file);
    CheckWithoutFailures(later.env, p.pan, p.channel);
    AgreesMeansCarries(later.env.nv, p.pan, p.channel);
    MatchIff(later.env, p.pan, p.channel);
  }

  // ---------- Configuration writes during a pass ----------

  /** The task still has a configuration to save in this pass, the one in its locals. */
  predicate SavesLater(at: Place) {
    (at.Checked? && !at.check.Match?) || (at.Written? && at.formed) || at.Started?
  }

  function Locals(at: Place): Params
    requires SavesLater(at)
  {
    match at
    case Checked(p, _) => p
    case Written(p, _) => p
    case Started(p) => p
  }

  lemma {:induction false} FormingGranted(fw: Fw, p: Params)
    requires Reliable(fw.env, 7)
    ensures HandleForming(fw, p).1
    ensures HandleForming(fw, p).0.file == Save(NetCfg(p.pan, p.channel, p.key, fw.baud))
    ensures HandleForming(fw, p).0 == fw.(state := Forming, env := HandleForming(fw, p).0.env,
                                          file := HandleForming(fw, p).0.file)
  {
    WriteAllWithoutFailures(fw.env, FormItems(p.pan, p.channel, p.key));
    WriteAllEffect(fw.env, FormItems(p.pan, p.channel, p.key));
  }

  lemma {:induction false} ReconfiguringGranted(fw: Fw, p: Params)
    requires Reliable(fw.env, 10)
    ensures HandleReconfiguring(fw, p).1
    ensures HandleReconfiguring(fw, p).0.file == Save(NetCfg(p.pan, p.channel, p.key, fw.baud))
    ensures HandleReconfiguring(fw, p).0 == fw.(state := Forming, env := HandleReconfiguring(fw, p).0.env,
                                                file := HandleReconfiguring(fw, p).0.file)
  {
    WriteEachEffect(fw.env, CLEAR_ITEMS);
    FormingGranted(fw.(state := Reconfiguring, env := WriteEach(fw.env, CLEAR_ITEMS)), p);
  }

  /** From the check on, with the file as it is then. */
  lemma {:induction false} FinishGranted(fw: Fw, p: Params, check: CheckResult)
    requires fw.at == Checked(p, check) && Reliable(fw.env, 10)
    ensures var fw' := Finish(fw);
            && fw'.at.Serving? && fw'.queue == fw.queue && fw'.defaults == fw.defaults
            && fw'.activePan == fw.activePan && fw'.activeChannel == fw.activeChannel
            && fw'.file == (if check.Match? then fw.file else Save(NetCfg(p.pan, p.channel, p.key, fw.baud)))
  {
    FinishChecked(fw, p, check);
    match check {
      case Empty => FormingGranted(fw, p);
      case Mismatch => ReconfiguringGranted(fw, p);
      case Match =>
    }
  }

  lemma {:induction false} FinishFromStart(fw: Fw)
    requires fw.at.Initialised? && Reliable(fw.env, 12)
    ensures var fw', p := Finish(fw), Effective(fw.defaults, fw.file);
            && fw'.at.Serving? && fw'.queue == fw.queue && fw'.defaults == fw.defaults
            && fw'.activePan == p.pan && fw'.activeChannel == p.channel
            && Effective(fw.defaults, fw'.file) == p
  {
    var p := Effective(fw.defaults, fw.file);
    var fw1 := CheckStep(fw);
    assert Finish(fw) == Finish(fw1);
    MatchIff(fw.env, p.pan, p.channel);
    FinishGranted(fw1, p, fw1.at.check);
    EffectiveFixpoint(fw.defaults, fw.file, fw.baud);
  }

  lemma {:induction false} FinishLate(fw: Fw)
    requires (fw.at.Written? || fw.at.Started? || fw.at.Settled?) && Reliable(fw.env, 2)
    ensures var fw' := Finish(fw);
            && fw'.at.Serving? && fw'.queue == fw.queue && fw'.defaults == fw.defaults
            && fw'.activePan == fw.activePan && fw'.activeChannel == fw.activeChannel
            && fw'.file == if SavesLater(fw.at) then var p := Locals(fw.at); Save(NetCfg(p.pan, p.channel, p.key, fw.baud))
                           else fw.file
  {
    match fw.at {
      case Written(p, formed) => FinishWritten(fw, p, formed);
      case Started(p) => FinishStarted(fw, p);
      case Settled => assert Finish(fw) == Finish(Step(fw)) == EnterReady(fw);
    }
  }

  /** A configuration stored at any point of a pass whose requests succeed. The pass asks for no
      reconfiguration. The configuration is in force afterwards exactly when the task had no
      configuration of its own left to save: before the check, when the pass resumes, and after the save. It
      is the active one only when it was stored before the check. */
  lemma {:induction false} WriteDuringPass(fw: Fw, cfg: NetCfg, file: ConfigFile)
    requires Left(fw.at) > 0 && !fw.state.Ready? && Reliable(fw.env, 12)
    requires SavesLater(fw.at) ==> Locals(fw.at) == Effective(fw.defaults, file)
    ensures var fw', stored := Finish(ParamSet(fw, cfg, true)), Effective(fw.defaults, Save(cfg));
            && fw'.at.Serving? && fw'.queue == fw.queue
            && Effective(fw.defaults, fw'.file) == (if SavesLater(fw.at) then Locals(fw.at) else stored)
            && (if fw.at.Initialised? then fw'.activePan == stored.pan && fw'.activeChannel == stored.channel
                else fw'.activePan == fw.activePan && fw'.activeChannel == fw.activeChannel)
  {
    var fw1 := ParamSet(fw, cfg, true);
    if SavesLater(fw.at) {
      EffectiveFixpoint(fw.defaults, file, fw.baud);
    }
    match fw.at {
      case Initialised => FinishFromStart(fw1);
      case Checked(p, check) => FinishGranted(fw1, p, check);
      case _ => FinishLate(fw1);
    }
  }

  // ---------- Retries ----------

  datatype Outcome = InitFailed | BringUpFailed | CameUp

  /** The outcomes of the passes since the last power-on, after one more event. */
  function Record(fw: Fw, ev: Event, past: seq<Outcome>): seq<Outcome>
    requires Enabled(fw, ev)
  {
    if ev.DoReboot? then []
    else if !ev.DoStep? then past
    else if Step(fw).at.Serving? then past + [CameUp]
    else if !Step(fw).at.Between? then past
    else if fw.at.Between? then past + [InitFailed]
    else past + [BringUpFailed]
  }

  function Outcomes(fw: Fw, run: seq<Event>, past: seq<Outcome>): seq<Outcome>
    requires Possible(fw, run)
    decreases |run|
  {
    if run == [] then past
    else Outcomes(Next(fw, run[0]), run[1..], Record(fw, run[0], past))
  }

  /** Failed initialisations at the end of the list, and one more for a failed bring-up before them. */
  function Streak(past: seq<Outcome>): nat {
    if past == [] then 0
    else
      match past[|past| - 1]
      case InitFailed => Streak(past[..|past| - 1]) + 1
      case BringUpFailed => 1
      case CameUp => 0
  }

  /** The retry counter is the streak, but 0 while a pass that got through reset and ping is under way. */
  predicate RetryInv(fw: Fw, past: seq<Outcome>) {
    && (fw.halted <==> Streak(past) > MAX_INIT_RETRIES)
    && (fw.halted ==> fw.at.Between?)
    && fw.retry == (if fw.at.Between? then Streak(past) else 0)
    && (fw.at.Serving? ==> Streak(past) == 0)
  }

  lemma {:induction false} StreakSnoc(past: seq<Outcome>, o: Outcome)
    ensures Streak(past + [o]) == match o case InitFailed => Streak(past) + 1 case BringUpFailed => 1 case CameUp => 0
  {
    assert (past + [o])[..|past|] == past;
  }

  /** A step of a pass, and what it does to the counter. */
  lemma {:induction false} StepRetries(fw: Fw)
    requires !fw.at.Serving? && !fw.halted
    ensures var fw' := Step(fw);
            && (fw'.at.Between? ==> fw'.retry == fw.retry + 1 && (fw'.halted <==> fw'.retry > MAX_INIT_RETRIES))
            && (!fw'.at.Between? ==> !fw'.halted)
            && (fw'.at.Initialised? || fw'.at.Serving? ==> fw'.retry == 0)
            && (!fw'.at.Between? && !fw'.at.Initialised? && !fw'.at.Serving? ==> !fw.at.Between? && fw'.retry == fw.retry)
  {
  }

  lemma {:induction false} RetryTask(fw: Fw, past: seq<Outcome>)
    requires RetryInv(fw, past) && Enabled(fw, DoStep)
    ensures RetryInv(Step(fw), Record(fw, DoStep, past))
  {
    StepRetries(fw);
    StreakSnoc(past, InitFailed);
    StreakSnoc(past, BringUpFailed);
    StreakSnoc(past, CameUp);
  }

  lemma {:induction false} RetryStep(fw: Fw, ev: Event, past: seq<Outcome>)
    requires RetryInv(fw, past) && Enabled(fw, ev)
    ensures RetryInv(Next(fw, ev), Record(fw, ev, past))
  {
    if ev.DoStep? {
      RetryTask(fw, past);
    } else {
      RetryElsewhere(fw, ev);
    }
  }

  lemma {:induction false} RetryElsewhere(fw: Fw, ev: Event)
    requires Enabled(fw, ev) && !ev.DoStep?
    ensures var fw' := Next(fw, ev);
            if ev.DoReboot? then fw'.at.Between? && fw'.retry == 0 && !fw'.halted
            else fw'.retry == fw.retry && fw'.halted == fw.halted
                 && (fw'.at == fw.at || (fw.at.Serving? && fw'.at.Between?))
  {
  }

  lemma {:induction false} RetryRun(fw: Fw, run: seq<Event>, past: seq<Outcome>)
    requires RetryInv(fw, past) && Possible(fw, run)
    ensures RetryInv(Exec(fw, run), Outcomes(fw, run, past))
    decreases |run|
  {
    if run != [] {
      RetryStep(fw, run[0], past);
      RetryRun(Next(fw, run[0]), run[1..], Record(fw, run[0], past));
    }
  }

  /** The last `k` outcomes are failed initialisations. */
  predicate EndsInInitFailures(past: seq<Outcome>, k: nat) {
    |past| >= k && forall i :: |past| - k <= i < |past| ==> past[i] == InitFailed
  }

  lemma {:induction false} StreakLong(past: seq<Outcome>, k: nat)
    ensures Streak(past) > k <==>
            |past| > k && EndsInInitFailures(past, k) && past[|past| - k - 1] != CameUp
    decreases k
  {
    if past != [] && k > 0 {
      var init := past[..|past| - 1];
      StreakLong(init, k - 1);
      if EndsInInitFailures(past, k) {
        assert EndsInInitFailures(init, k - 1);
      }
      if past[|past| - 1] == InitFailed && EndsInInitFailures(init, k - 1) {
        assert forall i :: |past| - k <= i < |past| - 1 ==> past[i] == init[i];
      }
    }
  }

  /** In every run, the task has halted exactly when the passes since the last power-on end in five that
      fail at reset or ping, after one that failed as well: at reset or ping, or at the bring-up. */
  lemma {:induction false} HaltedIff(fw: Fw, run: seq<Event>)
    requires PowerOn(fw) && Possible(fw, run)
    ensures var past := Outcomes(fw, run, []);
            Exec(fw, run).halted <==>
            |past| > 5 && EndsInInitFailures(past, 5) && past[|past| - 6] != CameUp
  {
    RetryRun(fw, run, []);
    StreakLong(Outcomes(fw, run, []), 5);
  }

  /** As long as the coprocessor answers reset and ping, failing network bring-ups never halt the task,
      however many there are: each pass starts counting anew. */
  lemma {:induction false} BringUpFailuresNeverHalt(fw: Fw, run: seq<Event>)
    requires PowerOn(fw) && Possible(fw, run)
    requires InitFailed !in Outcomes(fw, run, [])
    ensures !Exec(fw, run).halted && Exec(fw, run).retry <= 1
  {
    var past := Outcomes(fw, run, []);
    RetryRun(fw, run, []);
    StreakLong(past, 1);
  }

  const THREE_STEPS: seq<Event> := [DoStep, DoStep, DoStep]

  /** In each group of seven requests the first four are granted and the others refused. */
  ghost predicate AnswersInitOnly(e: Env) {
    e.clock % 7 == 0 && forall k: nat :: e.answers(k) == if k % 7 < 4 then Answer.Granted else Denied
  }

  lemma {:induction false} RunsCompose(fw: Fw, a: seq<Event>, b: seq<Event>, past: seq<Outcome>)
    requires Possible(fw, a) && Possible(Exec(fw, a), b)
    ensures Possible(fw, a + b) && Exec(fw, a + b) == Exec(Exec(fw, a), b)
    ensures Outcomes(fw, a + b, past) == Outcomes(Exec(fw, a), b, Outcomes(fw, a, past))
    decreases |a|
  {
    if a == [] {
      assert a + b == b;
    } else {
      assert (a + b)[0] == a[0] && (a + b)[1..] == a[1..] + b;
      RunsCompose(Next(fw, a[0]), a[1..], b, Record(fw, a[0], past));
    }
  }

  lemma {:induction false} OneStep(fw: Fw, past: seq<Outcome>)
    requires Enabled(fw, DoStep)
    ensures Possible(fw, [DoStep]) && Exec(fw, [DoStep]) == Step(fw)
    ensures Outcomes(fw, [DoStep], past) == Record(fw, DoStep, past)
  {
    assert [DoStep][1..] == [];
  }

  /** `run` leads from `fw` to `fw'` and adds `more` to the outcomes. */
  ghost predicate Leads(fw: Fw, run: seq<Event>, fw': Fw, past: seq<Outcome>, more: seq<Outcome>) {
    Possible(fw, run) && Exec(fw, run) == fw' && Outcomes(fw, run, past) == past + more
  }

  lemma {:induction false} LeadsOn(fw: Fw, a: seq<Event>, fw1: Fw, b: seq<Event>, fw2: Fw,
                                   past: seq<Outcome>, more: seq<Outcome>, further: seq<Outcome>)
    requires Leads(fw, a, fw1, past, more) && Leads(fw1, b, fw2, past + more, further)
    ensures Leads(fw, a + b, fw2, past, more + further)
  {
    RunsCompose(fw, a, b, past);
    assert past + more + further == past + (more + further);
  }

  lemma {:induction false} InitAnswered(fw: Fw, past: seq<Outcome>) returns (fw1: Fw)
    requires fw.at.Between? && !fw.halted && AnswersInitOnly(fw.env)
    ensures Leads(fw, [DoStep], fw1, past, [])
    ensures fw1.at.Initialised? && !fw1.halted && fw1.retry == 0
    ensures fw1.env == fw.env.(clock := fw.env.clock + 4)
  {
    var e := fw.env;
    assert e.answers(e.clock) == Answer.Granted && e.answers(e.clock + 1) == Answer.Granted;
    fw1 := InitStep(fw);
    OneStep(fw, past);
    assert past + [] == past;
  }

  lemma {:induction false} CheckRefused(fw: Fw, past: seq<Outcome>) returns (fw1: Fw)
    requires fw.at.Initialised? && !fw.halted && fw.retry == 0 && fw.env.answers(fw.env.clock).Denied?
    ensures Leads(fw, [DoStep], fw1, past, [])
    ensures fw1.at.Checked? && fw1.at.check.Empty? && !fw1.halted && fw1.retry == 0
    ensures fw1.env == fw.env.(clock := fw.env.clock + 2)
  {
    var p := Effective(fw.defaults, fw.file);
    MatchIff(fw.env, p.pan, p.channel);
    fw1 := CheckStep(fw);
    OneStep(fw, past);
    assert past + [] == past;
  }

  lemma {:induction false} WriteRefused(fw: Fw, past: seq<Outcome>) returns (fw1: Fw)
    requires fw.at.Checked? && fw.at.check.Empty? && !fw.halted && fw.retry == 0
    requires fw.env.answers(fw.env.clock).Denied?
    ensures Leads(fw, [DoStep], fw1, past, [BringUpFailed])
    ensures fw1.at.Between? && !fw1.halted && fw1.env == fw.env.Tick()
  {
    WriteAllStep(fw.env, FormItems(fw.at.params.pan, fw.at.params.channel, fw.at.params.key));
    fw1 := WriteStep(fw, fw.at.params, Empty);
    OneStep(fw, past);
  }

  lemma {:induction false} SevenAnswers(e: Env)
    requires AnswersInitOnly(e)
    ensures e.answers(e.clock + 4).Denied? && e.answers(e.clock + 6).Denied?
    ensures AnswersInitOnly(e.(clock := e.clock + 7))
  {
  }

  lemma {:induction false} TwoSilentSteps(fw: Fw, fw1: Fw, fw2: Fw, past: seq<Outcome>)
    requires Leads(fw, [DoStep], fw1, past, []) && Leads(fw1, [DoStep], fw2, past, [])
    ensures Leads(fw, [DoStep, DoStep], fw2, past, [])
  {
    assert past + [] == past;
    LeadsOn(fw, [DoStep], fw1, [DoStep], fw2, past, [], []);
    assert [DoStep] + [DoStep] == [DoStep, DoStep] && past + ([] + []) == past;
  }

  lemma {:induction false} ThirdStep(fw: Fw, fw2: Fw, fw3: Fw, past: seq<Outcome>)
    requires Leads(fw, [DoStep, DoStep], fw2, past, []) && Leads(fw2, [DoStep], fw3, past, [BringUpFailed])
    ensures Leads(fw, THREE_STEPS, fw3, past, [BringUpFailed])
  {
    assert past + [] == past && [] + [BringUpFailed] == [BringUpFailed];
    LeadsOn(fw, [DoStep, DoStep], fw2, [DoStep], fw3, past, [], [BringUpFailed]);
    assert [DoStep, DoStep] + [DoStep] == THREE_STEPS;
  }

  /** A pass that gets through reset and ping, and then fails to form a network. */
  lemma {:induction false} OneFailedBringUp(fw: Fw, past: seq<Outcome>) returns (fw3: Fw)
    requires fw.at.Between? && !fw.halted && AnswersInitOnly(fw.env)
    ensures Leads(fw, THREE_STEPS, fw3, past, [BringUpFailed])
    ensures fw3.at.Between? && !fw3.halted && AnswersInitOnly(fw3.env)
  {
    SevenAnswers(fw.env);
    var fw1 := InitAnswered(fw, past);
    var fw2 := CheckRefused(fw1, past);
    TwoSilentSteps(fw, fw1, fw2, past);
    fw3 := WriteRefused(fw2, past);
    ThirdStep(fw, fw2, fw3, past);
  }

  function AllFailed(n: nat): (past: seq<Outcome>)
    ensures |past| == n && forall i :: 0 <= i < n ==> past[i] == BringUpFailed
  {
    seq(n, _ => BringUpFailed)
  }

  function FailingRun(n: nat): seq<Event> {
    if n == 0 then [] else THREE_STEPS + FailingRun(n - 1)
  }

  lemma {:induction false} NoSteps(fw: Fw, past: seq<Outcome>)
    ensures Leads(fw, [], fw, past, [])
  {
    assert past + [] == past;
  }

  /** There are runs of any length in which every bring-up fails and the task goes on. */
  lemma {:induction false} FailsForEver(fw: Fw, n: nat, past: seq<Outcome>) returns (fw': Fw)
    requires fw.at.Between? && !fw.halted && AnswersInitOnly(fw.env)
    ensures Leads(fw, FailingRun(n), fw', past, AllFailed(n)) && !fw'.halted
    decreases n
  {
    if n == 0 {
      fw' := fw;
      NoSteps(fw, past);
      assert AllFailed(0) == [];
    } else {
      var fw3 := OneFailedBringUp(fw, past);
      fw' := FailsForEver(fw3, n - 1, past + [BringUpFailed]);
      LeadsOn(fw, THREE_STEPS, fw3, FailingRun(n - 1), fw', past, [BringUpFailed], AllFailed(n - 1));
      assert [BringUpFailed] + AllFailed(n - 1) == AllFailed(n);
    }
  }

  // ---------- Events and commands ----------

  /** The only admissible histories: READY, commands, LOST, READY, and so on. */
  datatype Phase = Down | Up | Broken

  function PhaseOf(log: seq<Entry>): Phase {
    if log == [] then Down
    else
      var before := PhaseOf(log[..|log| - 1]);
      match log[|log| - 1]
      case NetReady => if before.Down? then Up else Broken
      case NetLost => if before.Up? then Down else Broken
      case Executed(_) => if before.Up? then Up else Broken
  }

  function CommandsOf(log: seq<Entry>): seq<Cmd> {
    if log == [] then []
    else
      var last := log[|log| - 1];
      CommandsOf(log[..|log| - 1]) + (if last.Executed? then [last.cmd] else [])
  }

  lemma {:induction false} Snoc(log: seq<Entry>, e: Entry)
    ensures CommandsOf(log + [e]) == CommandsOf(log) + (if e.Executed? then [e.cmd] else [])
    ensures PhaseOf(log + [e])
            == (match e
                case NetReady => if PhaseOf(log).Down? then Up else Broken
                case NetLost => if PhaseOf(log).Up? then Down else Broken
                case Executed(_) => if PhaseOf(log).Up? then Up else Broken)
  {
    assert (log + [e])[..|log|] == log;
  }

  /** The history fits the queue: what was carried out and what is still queued is what was accepted. */
  predicate Fits(log: seq<Entry>, queue: seq<Cmd>, accepted: seq<Cmd>, serving: bool) {
    PhaseOf(log) == (if serving then Up else Down) && CommandsOf(log) + queue == accepted
  }

  predicate LogInv(fw: Fw) {
    Fits(fw.log, fw.queue, fw.accepted, fw.at.Serving?) && (fw.deadline != 0 ==> fw.at.Serving?)
  }

  lemma {:induction false} DequeueFits(log: seq<Entry>, queue: seq<Cmd>, accepted: seq<Cmd>)
    requires Fits(log, queue, accepted, true) && queue != []
    ensures Fits(log + [Executed(queue[0])], queue[1..], accepted, true)
  {
    Snoc(log, Executed(queue[0]));
    assert CommandsOf(log) + [queue[0]] + queue[1..] == CommandsOf(log) + queue;
  }

  lemma {:induction false} LostFits(log: seq<Entry>, queue: seq<Cmd>, accepted: seq<Cmd>)
    requires Fits(log, queue, accepted, true)
    ensures Fits(log + [NetLost], queue, accepted, false)
  {
    Snoc(log, NetLost);
    assert CommandsOf(log) + [] == CommandsOf(log);
  }

  lemma {:induction false} ReadyFits(log: seq<Entry>, queue: seq<Cmd>, accepted: seq<Cmd>)
    requires Fits(log, queue, accepted, false)
    ensures Fits(log + [NetReady], queue, accepted, true)
  {
    Snoc(log, NetReady);
    assert CommandsOf(log) + [] == CommandsOf(log);
  }

  lemma {:induction false} SubmitLog(fw: Fw, cmd: Cmd)
    requires LogInv(fw)
    ensures LogInv(Submit(fw, cmd))
  {
    assert CommandsOf(fw.log) + (fw.queue + [cmd]) == CommandsOf(fw.log) + fw.queue + [cmd];
  }

  lemma {:induction false} CommandLog(fw: Fw, tick: Tick32)
    requires LogInv(fw) && Enabled(fw, DoCommand(tick))
    ensures LogInv(RunCommand(fw, tick))
  {
    DequeueFits(fw.log, fw.queue, fw.accepted);
    LostFits(fw.log + [Executed(fw.queue[0])], fw.queue[1..], fw.accepted);
  }

  /** A step of a pass touches the history only when it enters READY. */
  lemma {:induction false} StepHistory(fw: Fw)
    requires !fw.at.Serving?
    ensures Step(fw).queue == fw.queue && Step(fw).accepted == fw.accepted && Step(fw).deadline == fw.deadline
    ensures Step(fw).log == if Step(fw).at.Serving? then fw.log + [NetReady] else fw.log
  {
  }

  lemma {:induction false} StepLog(fw: Fw)
    requires LogInv(fw) && Enabled(fw, DoStep)
    ensures LogInv(Step(fw))
  {
    StepHistory(fw);
    ReadyFits(fw.log, fw.queue, fw.accepted);
  }

  lemma {:induction false} ParamSetLog(fw: Fw, cfg: NetCfg, saved: bool)
    requires LogInv(fw)
    ensures LogInv(ParamSet(fw, cfg, saved))
  {
    SubmitLog(fw.(file := Save(cfg)), Reconfigure);
  }

  lemma {:induction false} LogStep(fw: Fw, ev: Event)
    requires LogInv(fw) && Enabled(fw, ev)
    ensures LogInv(Next(fw, ev))
  {
    match ev {
      case DoStep => StepLog(fw);
      case DoCommand(tick) => CommandLog(fw, tick);
      case DoReset => LostFits(fw.log, fw.queue, fw.accepted);
      case DoSubmit(cmd) => SubmitLog(fw, cmd);
      case DoParamSet(cfg, saved) => ParamSetLog(fw, cfg, saved);
      case DoReboot => assert LogInv(Reboot(fw));
    }
  }

  lemma {:induction false} LogRun(fw: Fw, run: seq<Event>)
    requires LogInv(fw) && Possible(fw, run)
    ensures LogInv(Exec(fw, run))
    decreases |run|
  {
    if run != [] {
      LogStep(fw, run[0]);
      LogRun(Next(fw, run[0]), run[1..]);
    }
  }

  /** Since the last power-on of any run: READY and LOST alternate, starting with READY, every command
      was carried out between a READY and its LOST, and the commands carried out followed by those
      still queued are the accepted ones, in order and each once. The permit-join deadline is 0
      whenever the task is outside its READY loop. */
  lemma {:induction false} CommandsAndEventsInOrder(fw: Fw, run: seq<Event>)
    requires PowerOn(fw) && Possible(fw, run)
    ensures var fw' := Exec(fw, run);
            && PhaseOf(fw'.log) == (if fw'.at.Serving? then Up else Down)
            && CommandsOf(fw'.log) + fw'.queue == fw'.accepted
            && (!fw'.at.Serving? ==> fw'.deadline == 0)
  {
    LogRun(fw, run);
  }

  function NetEvents(log: seq<Entry>): seq<Entry> {
    if log == [] then []
    else
      var last := log[|log| - 1];
      NetEvents(log[..|log| - 1]) + (if last.Executed? then [] else [last])
  }

  /** What an unbroken history means for the events alone: a prefix of (READY LOST)*. */
  lemma {:induction false} EventsAlternate(log: seq<Entry>)
    requires !PhaseOf(log).Broken?
    ensures forall i :: 0 <= i < |NetEvents(log)| ==> NetEvents(log)[i] == if i % 2 == 0 then NetReady else NetLost
    ensures PhaseOf(log).Up? <==> |NetEvents(log)| % 2 == 1
    decreases |log|
  {
    if log != [] {
      EventsAlternate(log[..|log| - 1]);
    }
  }

  /** ... and for a command: the last network event before it is a READY. */
  lemma {:induction false} CommandsRunWhileUp(log: seq<Entry>, i: nat)
    requires !PhaseOf(log).Broken? && i < |log| && log[i].Executed?
    ensures NetEvents(log[..i]) != [] && NetEvents(log[..i])[|NetEvents(log[..i])| - 1] == NetReady
    decreases |log|
  {
    if i == |log| - 1 {
      EventsAlternate(log[..i]);
    } else {
      CommandsRunWhileUp(log[..|log| - 1], i);
      assert log[..|log| - 1][..i] == log[..i];
    }
  }

  // ---------- The framework task in place ----------

  /** The loop that looks for a byte that is not 0. */
  method KeyIsSet(key: NwkKey) returns (keySet: bool)
    ensures keySet <==> key != ZERO_KEY
  {
    keySet := false;
    var i := 0;
    while i < KEY_LEN && !keySet
      invariant i <= KEY_LEN
      invariant !keySet ==> forall j :: 0 <= j < i ==> key[j] == 0
      invariant keySet ==> key != ZERO_KEY
    {
      keySet := key[i] != 0;
      assert keySet ==> key[i] != ZERO_KEY[i];
      i := i + 1;
    }
  }

  class Hub {
    const defaults: Params
    const baud: nat
    const depth: nat
    const cop: Coprocessor
    var state: ZbState
    var at: Place
    var halted: bool
    var retry: nat
    var activePan: nat
    var activeChannel: nat
    var permitJoinDeadline: Tick32
    var file: ConfigFile
    var queue: seq<Cmd>
    ghost var accepted: seq<Cmd>
    ghost var log: seq<Entry>

    ghost function Value(): Fw
      reads this, cop
    {
      Fw(defaults, baud, depth, state, at, halted, retry, activePan, activeChannel,
         permitJoinDeadline, file, cop.Value(), queue, accepted, log)
    }

    constructor (defaults: Params, baud: nat, depth: nat, cop: Coprocessor, file: ConfigFile)
      ensures Value() == Reboot(Value())
      ensures this.defaults == defaults && this.file == file && this.cop == cop
    {
      this.defaults, this.baud, this.depth, this.cop, this.file := defaults, baud, depth, cop, file;
      state, at, halted, retry := Uninitialized, Between, false, 0;
      activePan, activeChannel, permitJoinDeadline := 0, 0, 0;
      queue, accepted, log := [], [], [];
    }

    method ZnpInitialise() returns (ok: bool)
      modifies this`state, cop`clock
      ensures Value() == old(Value()).(state := ZnpInit, env := ZnpInitRequests(old(Value()).env).0)
      ensures ok == ZnpInitRequests(old(Value()).env).1
    {
      state := ZnpInit;
      var err := cop.Request();
      if err != EspOk {
        return false;
      }
      err := cop.Request();
      if err != EspOk {
        return false;
      }
      err := cop.Request();
      err := cop.Request();
      return true;
    }

    method LoadConfig() returns (p: Params)
      modifies this`activePan, this`activeChannel
      ensures Value() == LoadNetConfig(old(Value()))
      ensures p == Effective(defaults, file)
    {
      p := defaults;
      var (ok, stored) := Load(file, ZERO_CFG);
      if ok {
        if stored.pan != 0 {
          p := p.(pan := stored.pan);
        }
        if stored.channel != 0 {
          p := p.(channel := stored.channel);
        }
        var keySet := KeyIsSet(stored.key);
        if keySet {
          p := p.(key := stored.key);
        }
      }
      activePan, activeChannel := p.pan, p.channel;
    }

    method FormAndStart(p: Params) returns (up: bool)
      modifies this`state, this`file, cop`nv, cop`clock
      ensures (Value(), up) == HandleForming(old(Value()), p)
    {
      state := Forming;
      var err := cop.Form(p.pan, p.channel, p.key);
      if err != EspOk {
        return false;
      }
      err := cop.Request();
      if err != EspOk {
        return false;
      }
      err := cop.Request();
      if err == EspOk {
        file := Save(NetCfg(p.pan, p.channel, p.key, baud));
      }
      return true;
    }

    method ReconfigureAndStart(p: Params) returns (up: bool)
      modifies this`state, this`file, cop`nv, cop`clock
      ensures (Value(), up) == HandleReconfiguring(old(Value()), p)
    {
      state := Reconfiguring;
      cop.Clear();
      up := FormAndStart(p);
    }

    method BringUpNetwork() returns (up: bool)
      modifies this`state, this`file, this`activePan, this`activeChannel, cop`nv, cop`clock
      ensures (Value(), up) == BringUp(old(Value()))
    {
      state := NetworkCheck;
      var p := LoadConfig();
      var check := cop.CheckState(p.pan, p.channel);
      match check {
        case Empty => up := FormAndStart(p);
        case Mismatch => up := ReconfigureAndStart(p);
        case Match =>
          state := Forming;
          var err := cop.Request();
          up := err == EspOk;
      }
    }

    /** One turn of the task's loop up to the READY loop. */
    method RunPass()
      modifies this, cop`nv, cop`clock
      ensures Value() == Pass(old(Value()))
    {
      var inited := ZnpInitialise();
      if !inited {
        CountFailure();
        return;
      }
      retry := 0;
      var up := BringUpNetwork();
      if !up {
        CountFailure();
        return;
      }
      retry := 0;
      state, at := Ready, Serving;
      log := log + [NetReady];
    }

    method CountFailure()
      modifies this`at, this`retry, this`halted
      ensures Value() == CountRetry(old(Value()))
    {
      at := Between;
      retry := retry + 1;
      halted := retry > MAX_INIT_RETRIES;
    }

    /** One command in the READY loop. */
    method ProcessCommand(tick: Tick32)
      requires queue != []
      modifies this, cop`clock
      ensures Value() == RunCommand(old(Value()), tick)
    {
      var cmd := queue[0];
      queue := queue[1..];
      log := log + [Executed(cmd)];
      match cmd {
        case PermitJoin(duration) =>
          var err := cop.Request();
          permitJoinDeadline := Deadline(tick, duration);
        case ChangeChannel(channel) =>
          var err := cop.Request();
          if err == EspOk {
            file := WithChannel(file, channel);
          }
          LeaveReadyLoop();
        case Reconfigure =>
          LeaveReadyLoop();
      }
    }

    method LeaveReadyLoop()
      modifies this`permitJoinDeadline, this`at, this`log
      ensures Value() == LeaveReady(old(Value()))
    {
      permitJoinDeadline, at := 0, Between;
      log := log + [NetLost];
    }

    method SubmitCommand(cmd: Cmd) returns (accepts: bool)
      modifies this`queue, this`accepted
      ensures Value() == Submit(old(Value()), cmd)
      ensures accepts == Accepts(old(Value()), cmd)
    {
      accepts := |queue| < depth && (cmd.ChangeChannel? ==> ValidChannel(cmd.channel));
      if accepts {
        queue := queue + [cmd];
        accepted := accepted + [cmd];
      }
    }

    /** The status query. In READY it says PERMIT_JOIN exactly while the reported time is positive. The
        number of devices comes from the registry. */
    method NetworkInfo(tick: Tick32, devices: nat) returns (info: NetInfo)
      ensures info.state == state && info.pan == activePan && info.channel == activeChannel
      ensures info.devices == devices % 0x1_0000
      ensures info.ttl == Ttl(permitJoinDeadline, tick)
      ensures info.status == StatusPermitJoin <==> state.Ready? && info.ttl > 0
      ensures info.status == StatusReady <==> state.Ready? && info.ttl == 0
      ensures info.status == StatusOffline <==> state in {Uninitialized, ZnpInit}
    {
      var ttl: byte;
      if permitJoinDeadline == 0 {
        ttl := 0;
      } else if permitJoinDeadline == FOREVER {
        ttl := 0xFF;
      } else {
        var remaining := Signed((permitJoinDeadline - tick) % U32, 32);
        if remaining <= 0 {
          ttl := 0;
        } else {
          var secs := remaining / TICKS_PER_SECOND;
          ttl := if secs > 254 then 254 else secs;
        }
      }
      var status := match state
        case Uninitialized => StatusOffline
        case ZnpInit => StatusOffline
        case NetworkCheck => StatusForming
        case Forming => StatusForming
        case Reconfiguring => StatusForming
        case Ready => if ttl > 0 then StatusPermitJoin else StatusReady;
      info := NetInfo(state, activePan, activeChannel, devices % 0x1_0000, ttl, status);
    }
  }

  datatype NetInfo = NetInfo(state: ZbState, pan: nat, channel: nat, devices: nat, ttl: byte, status: NetStatus)

  datatype NetStatus = StatusOffline | StatusForming | StatusReady | StatusPermitJoin
}
