/** The narrative cache under concurrent calls.  sync.Map's Load, Delete and Store and the completion call are the
    atomic steps; a fingerprint is whatever string the packet hashes to. */
module Narrative {
  import opened Common
  import opened Packet

  datatype Entry = Entry(text: string, createdAt: int)

  /** One Narrate call past its gate: about to load, about to delete an expired entry, waiting for the model,
      about to store what the model said. */
  datatype Call = Loading(fp: string) | Expired(fp: string) | Completing(fp: string) | Storing(fp: string, text: string)

  /** A text handed to a caller; for a cached one, when its entry was made and when it was looked at. */
  datatype Returned = Returned(fp: string, text: string, cached: bool, createdAt: int, checkedAt: int)

  datatype State = State(
    cache: map<string, Entry>, calls: map<nat, Call>, completed: set<(string, string)>, returned: seq<Returned>)

  datatype Step =
    | Start(t: nat, fp: string, packet: Packet, force: bool)
    | Load(t: nat, now: int)
    | Delete(t: nat)
    | Complete(t: nat, reply: Option<string>)  // None: any error
    | Store(t: nat, now: int)

  predicate Enabled(s: State, step: Step) {
    match step
    case Start(t, _, packet, force) => t !in s.calls && WorthNarrating(packet, force).0
    case Load(t, _) => t in s.calls && s.calls[t].Loading?
    case Delete(t) => t in s.calls && s.calls[t].Expired?
    case Complete(t, reply) => t in s.calls && s.calls[t].Completing? && (reply.Some? ==> reply.value != "")
    case Store(t, _) => t in s.calls && s.calls[t].Storing?
  }

  function Apply(ttl: int, s: State, step: Step): State
    requires Enabled(s, step)
  {
    match step
    case Start(t, fp, _, _) => s.(calls := s.calls[t := Loading(fp)])
    case Load(t, now) =>
      var fp := s.calls[t].fp;
      if fp !in s.cache then s.(calls := s.calls[t := Completing(fp)])
      else
        var e := s.cache[fp];
        if now - e.createdAt < ttl
        then s.(calls := s.calls - {t}, returned := s.returned + [Returned(fp, e.text, true, e.createdAt, now)])
        else s.(calls := s.calls[t := Expired(fp)])
    case Delete(t) => s.(cache := s.cache - {s.calls[t].fp}, calls := s.calls[t := Completing(s.calls[t].fp)])
    case Complete(t, reply) =>
      var fp := s.calls[t].fp;
      if reply.None? then s.(calls := s.calls - {t})
      else s.(calls := s.calls[t := Storing(fp, reply.value)], completed := s.completed + {(fp, reply.value)})
    case Store(t, now) =>
      var fp, text := s.calls[t].fp, s.calls[t].text;
      s.(cache := s.cache[fp := Entry(text, now)], calls := s.calls - {t},
         returned := s.returned + [Returned(fp, text, false, now, now)])
  }

  predicate Runs(ttl: int, s: State, steps: seq<Step>, s1: State)
    decreases |steps|
  {
    if steps == [] then s == s1 else Enabled(s, steps[0]) && Runs(ttl, Apply(ttl, s, steps[0]), steps[1..], s1)
  }

  function Fresh(): State {
    State(map[], map[], {}, [])
  }

  ghost predicate ReturnedOk(ttl: int, s: State, r: Returned) {
    (r.fp, r.text) in s.completed && (r.cached ==> r.checkedAt - r.createdAt < ttl)
  }

  ghost predicate Inv(ttl: int, s: State) {
    && (forall pair | pair in s.completed :: pair.1 != "")
    && (forall fp | fp in s.cache :: (fp, s.cache[fp].text) in s.completed)
    && (forall t | t in s.calls && s.calls[t].Storing? :: (s.calls[t].fp, s.calls[t].text) in s.completed)
    && (forall i | 0 <= i < |s.returned| :: ReturnedOk(ttl, s, s.returned[i]))
  }

  lemma StepKeepsInv(ttl: int, s: State, step: Step)
    requires Inv(ttl, s) && Enabled(s, step)
    ensures Inv(ttl, Apply(ttl, s, step))
    ensures step.Complete? && step.reply.None? ==> Apply(ttl, s, step).cache == s.cache
  {
    var s1 := Apply(ttl, s, step);
    forall i | 0 <= i < |s1.returned| ensures ReturnedOk(ttl, s1, s1.returned[i]) {
      if i < |s.returned| { assert ReturnedOk(ttl, s, s.returned[i]); }
    }
  }

  lemma {:induction false} RunKeepsInv(ttl: int, s: State, steps: seq<Step>, s1: State)
    requires Inv(ttl, s) && Runs(ttl, s, steps, s1)
    ensures Inv(ttl, s1)
    decreases |steps|
  {
    if steps != [] {
      StepKeepsInv(ttl, s, steps[0]);
      RunKeepsInv(ttl, Apply(ttl, s, steps[0]), steps[1..], s1);
    }
  }

  /** Over all concurrent runs, every text a caller got was said by the model for that fingerprint, a cached one was
      younger than the TTL when it was looked at, and the cache holds nothing but such texts -- never an error. */
  lemma TextsComeFromCompletions(ttl: int, steps: seq<Step>, s: State)
    requires Runs(ttl, Fresh(), steps, s)
    ensures forall i | 0 <= i < |s.returned| ::
              var r := s.returned[i];
              (r.fp, r.text) in s.completed && r.text != "" && (r.cached ==> r.checkedAt - r.createdAt < ttl)
    ensures forall fp | fp in s.cache :: (fp, s.cache[fp].text) in s.completed && s.cache[fp].text != ""
  {
    RunKeepsInv(ttl, Fresh(), steps, s);
    forall i | 0 <= i < |s.returned| ensures ReturnedOk(ttl, s, s.returned[i]) {}
  }

  datatype Result = Skipped(reason: string) | Text(text: string, cached: bool)

  predicate Live(cache: map<string, Entry>, fp: string, now: int, ttl: int) {
    fp in cache && now - cache[fp].createdAt < ttl
  }

  class Narrator {
    const enabled: bool
    const ttl: int
    var cache: map<string, Entry>
    ghost var completed: set<(string, string)>

    constructor (enabled: bool, ttl: int)
      ensures cache == map[] && completed == {} && this.enabled == enabled && this.ttl == ttl
    {
      this.enabled, this.ttl := enabled, ttl;
      cache, completed := map[], {};
    }

    ghost function View(): State
      reads this
    {
      State(cache, map[], completed, [])
    }

    /** One call with no other in between: the steps above, in program order.  `now` and `at` are the clock at the
        lookup and at the store; an empty answer of the model is an error. */
    method Narrate(fp: string, p: Packet, force: bool, now: int, answer: Option<string>, at: int)
      returns (r: Result, ghost steps: seq<Step>, ghost s1: State)
      modifies this
      ensures Runs(ttl, old(View()), steps, s1) && s1.cache == cache && s1.completed == completed && s1.calls == map[]
      ensures r.Skipped? ==> s1.returned == []
      ensures r.Text? ==> |s1.returned| == 1 && s1.returned[0].fp == fp && s1.returned[0].text == r.text
                          && s1.returned[0].cached == r.cached
      ensures !enabled || !WorthNarrating(p, force).0 ==> r.Skipped? && View() == old(View())
      ensures enabled && WorthNarrating(p, force).0 ==>
                if Live(old(cache), fp, now, ttl) then r == Text(old(cache)[fp].text, true) && View() == old(View())
                else if answer.None? || answer.value == "" then r == Skipped("llm_error") && cache == old(cache) - {fp}
                else r == Text(answer.value, false) && cache == old(cache)[fp := Entry(answer.value, at)]
    {
      ghost var s := View();
      steps, s1 := [], s;
      var (ok, _) := WorthNarrating(p, force);
      if !ok { r := Skipped("gate"); return; }
      if !enabled { r := Skipped("llm_disabled"); return; }
      ghost var started := Apply(ttl, s, Start(0, fp, p, force));
      RunsSnoc(ttl, s, [], s, Start(0, fp, p, force));
      ghost var before := [] + [Start(0, fp, p, force)] + [Load(0, now)];
      RunsSnoc(ttl, s, [] + [Start(0, fp, p, force)], started, Load(0, now));
      ghost var loaded := Apply(ttl, started, Load(0, now));
      if fp in cache {
        var e := cache[fp];
        if now - e.createdAt < ttl {
          r := Text(e.text, true);
          steps, s1 := before, loaded;
          return;
        }
        cache := cache - {fp};
        RunsSnoc(ttl, s, before, loaded, Delete(0));
        before, loaded := before + [Delete(0)], Apply(ttl, loaded, Delete(0));
      }
      assert loaded == State(cache, map[0 := Completing(fp)], completed, []);
      var reply := if answer == Some("") then None else answer;
      ghost var done := Apply(ttl, loaded, Complete(0, reply));
      RunsSnoc(ttl, s, before, loaded, Complete(0, reply));
      steps, s1 := before + [Complete(0, reply)], done;
      if reply.None? { r := Skipped("llm_error"); return; }
      completed := completed + {(fp, reply.value)};
      cache := cache[fp := Entry(reply.value, at)];
      RunsSnoc(ttl, s, steps, done, Store(0, at));
      steps, s1 := steps + [Store(0, at)], Apply(ttl, done, Store(0, at));
      r := Text(reply.value, false);
    }
  }

  lemma {:induction false} RunsSnoc(ttl: int, s: State, steps: seq<Step>, s1: State, step: Step)
    requires Runs(ttl, s, steps, s1) && Enabled(s1, step)
    ensures Runs(ttl, s, steps + [step], Apply(ttl, s1, step))
    decreases |steps|
  {
    if steps == [] {
      assert [step][1..] == [];
    } else {
      RunsSnoc(ttl, Apply(ttl, s, steps[0]), steps[1..], s1, step);
      assert (steps + [step])[1..] == steps[1..] + [step];
    }
  }
}
