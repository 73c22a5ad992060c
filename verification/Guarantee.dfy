/** Exactly when the pipeline finishes, shuts down safely, and delivers everything. */
module Guarantee {
  import opened Sums
  import opened Labels
  import opened Pipeline
  import opened Delivery
  import opened Shutdown
  import opened Termination
  import opened Progress
  import opened Gaps

  /** A run that can go no further has finished, in all runs of an input, exactly if its receivers
      never come to a gap and its examples can be classified. With some example and fewer than k
      clusters, or a mark among the first k, the classifiers wait for ever; at a gap a rank ends
      with its work undone. */
  lemma FinishesIff(cfg: Config, s: Sys)
    requires Shape(cfg, s) && Start(cfg, s)
    ensures (forall schedule :: Stuck(cfg, Exec(cfg, s, schedule)) ==> Finished(Exec(cfg, s, schedule)))
       <==> !GapReachable(cfg, s.input, 0, 0) && Classifiable(cfg, s.input)
  {
    hide Exec;
    hide Inv;
    hide Enabled;
    hide Finished;
    hide Start;
    hide GapReachable;
    if GapReachable(cfg, s.input, 0, 0) {
      var m := GapHangs(cfg, s);
    } else if Classifiable(cfg, s.input) {
      forall schedule | Stuck(cfg, Exec(cfg, s, schedule)) ensures Finished(Exec(cfg, s, schedule)) {
        var t := Exec(cfg, s, schedule);
        EveryRun(cfg, s, schedule);
        RunFollows(cfg, s, schedule);
        Numbered(cfg, s, schedule, 0);
        NobodyDies(cfg, s, schedule);
        if !Finished(t) {
          var e := NeverStuck(cfg, s.input, t);
        }
      }
    } else {
      var m := Maximal(cfg, s, []);
      NothingSeen(cfg, s, m);
    }
  }

  /** A gap shows: one cluster whose id is not zero, then examples. */
  lemma GapFails(cfg: Config, s: Sys, id: nat, tag: nat, rest: seq<Line>)
    requires Shape(cfg, s) && Start(cfg, s) && s.input == [ClusterLine(id, tag)] + rest && id != 0 && tag != EOS_LABEL
    ensures exists schedule :: Stuck(cfg, Exec(cfg, s, schedule)) && !Finished(Exec(cfg, s, schedule))
  {
    var m := GapHangs(cfg, s);
  }

  lemma NobodyDiesUnheard(cfg: Config, s: Sys, e: Event)
    requires Shape(cfg, s) && Enabled(cfg, s, e) && !e.Hear? && NoneDead(cfg, s)
    ensures NoneDead(cfg, Do(cfg, s, e))
  {
  }

  /** With examples taken for marks, a run in which no receiver hears anything finishes. */
  lemma {:induction false} QuietRun(cfg: Config, s: Sys, schedule: seq<Event>) returns (m: seq<Event>)
    requires Start(cfg, s) && cfg.unset == EOS_LABEL && NoneDead(cfg, Exec(cfg, s, schedule))
    ensures Finished(Exec(cfg, s, m))
    decreases StepsLeft(cfg, Exec(cfg, s, schedule))
  {
    hide Exec;
    hide Do;
    hide Enabled;
    hide Inv;
    hide StepsLeft;
    hide Finished;
    hide NoneDead;
    var t := Exec(cfg, s, schedule);
    m := schedule;
    if !Finished(t) {
      EveryRun(cfg, s, schedule);
      RunFollows(cfg, s, schedule);
      Numbered(cfg, s, schedule, 0);
      StepsNotNegative(cfg, t);
      var e := NeverStuck(cfg, s.input, t);
      ExecSnoc(cfg, s, schedule, e);
      StepsRunOut(cfg, t, e);
      NobodyDiesUnheard(cfg, t, e);
      m := QuietRun(cfg, s, schedule + [e]);
    }
  }

  lemma NoneDeadAtStart(cfg: Config, s: Sys)
    requires Start(cfg, s)
    ensures NoneDead(cfg, Exec(cfg, s, []))
  {
  }

  /** Leaving the detector's loop is safe in all runs of an input exactly if the unset label is not
      the mark, or there is no example. */
  lemma SafeIff(cfg: Config, s: Sys)
    requires Shape(cfg, s) && Start(cfg, s)
    ensures (forall schedule :: Finished(Exec(cfg, s, schedule)) ==> Safe(cfg, s.input, Exec(cfg, s, schedule)))
       <==> Harmless(cfg, s)
  {
    hide Exec;
    hide Finished;
    hide Safe;
    hide Start;
    if Harmless(cfg, s) {
      forall schedule | Finished(Exec(cfg, s, schedule)) ensures Safe(cfg, s.input, Exec(cfg, s, schedule)) {
        SafeShutdown(cfg, s, schedule);
      }
    } else {
      NoneDeadAtStart(cfg, s);
      var m := QuietRun(cfg, s, []);
      UnsafeShutdown(cfg, s, m);
    }
  }

  lemma SafeIsFinished(cfg: Config, s: Sys, schedule: seq<Event>)
    requires Start(cfg, s) && Safe(cfg, s.input, Exec(cfg, s, schedule))
    ensures Finished(Exec(cfg, s, schedule))
  {
    hide Exec;
    EveryRun(cfg, s, schedule);
    FinishedIsGone(cfg, Exec(cfg, s, schedule));
  }

  /** The whole guarantee: every run that goes on while it can ends with the loop left safely,
      exactly if receivers never come to a gap, and there is no example, or the unset label is not
      the mark and the input brings k clusters with no mark among the first k. */
  lemma DeliveryGuaranteed(cfg: Config, s: Sys)
    requires Shape(cfg, s) && Start(cfg, s)
    ensures (forall schedule :: Stuck(cfg, Exec(cfg, s, schedule)) ==> Safe(cfg, s.input, Exec(cfg, s, schedule)))
       <==> && !GapReachable(cfg, s.input, 0, 0)
            && (Examples(s.input) == 0 || (cfg.unset != EOS_LABEL && Complete(cfg, s.input)))
  {
    hide Exec;
    hide Start;
    hide Complete;
    hide GapReachable;
    hide Safe;
    hide Finished;
    FinishesIff(cfg, s);
    forall schedule | Safe(cfg, s.input, Exec(cfg, s, schedule)) ensures Finished(Exec(cfg, s, schedule)) {
      SafeIsFinished(cfg, s, schedule);
    }
    if Harmless(cfg, s) {
      forall schedule | Finished(Exec(cfg, s, schedule)) ensures Safe(cfg, s.input, Exec(cfg, s, schedule)) {
        SafeShutdown(cfg, s, schedule);
      }
    } else {
      var m := Maximal(cfg, s, []);
      UnsafeShutdown(cfg, s, m);
    }
  }
}
