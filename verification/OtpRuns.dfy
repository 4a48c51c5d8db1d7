// Building runs of the protocol step by step, and from the statements of whole calls.
module OtpRuns {
  import opened OtpProtocol
  import opened OtpService

  ghost predicate Reaches(cfg: Config, run: seq<Step>, s: State) { Exec(cfg, run) == s }

  lemma ReachNext(cfg: Config, run: seq<Step>, s: State, step: Step)
    requires Reaches(cfg, run, s)
    ensures Reaches(cfg, run + [step], Next(cfg, s, step))
  {
  }

  lemma {:induction false} StepsLast(cfg: Config, s: State, steps: seq<Step>, last: Step)
    ensures Steps(cfg, s, steps + [last]) == Next(cfg, Steps(cfg, s, steps), last)
    decreases |steps|
  {
    var all := steps + [last];
    if steps == [] {
      assert all[0] == last && all[1..] == [];
    } else {
      StepsLast(cfg, Next(cfg, s, steps[0]), steps[1..], last);
      assert all[0] == steps[0] && all[1..] == steps[1..] + [last];
    }
  }

  lemma {:induction false} ReachSteps(cfg: Config, run: seq<Step>, s: State, steps: seq<Step>)
    requires Reaches(cfg, run, s)
    ensures Reaches(cfg, run + steps, Steps(cfg, s, steps))
    decreases |steps|
  {
    if steps == [] {
      assert run + steps == run;
    } else {
      var n := |steps| - 1;
      ReachSteps(cfg, run, s, steps[..n]);
      ReachNext(cfg, run + steps[..n], Steps(cfg, s, steps[..n]), steps[n]);
      StepsLast(cfg, s, steps[..n], steps[n]);
      assert steps == steps[..n] + [steps[n]] && run + steps == run + steps[..n] + [steps[n]];
    }
  }
}
