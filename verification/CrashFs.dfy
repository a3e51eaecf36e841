/** The file system a boot finds after any crash: whether every block has one owner and the bitmap agrees. */
module CrashFs {
  import S = FsSteps
  import opened FsCalls
  import opened DiskWords
  import opened RedoLog
  import opened LogMachine
  import LogInvariant
  import LogTheorems
  import opened CrashQuiet

  /** Every inode in which a pointer has been filled is on disk with it. */
  ghost predicate Written(f: Fs) {
    |f.dino| == |f.ino| && Behind(f) == {}
  }

  /** b comes from a by calls of the file system, one after the other. */
  ghost predicate Performed(sb: S.Super, a: Fs, b: Fs) {
    exists fs: seq<Fs>, calls: seq<Call> :: Chain(sb, fs, calls) && fs[0] == a && fs[|calls|] == b
  }

  /**
    What the file system does in a run: whenever no operation is running the home blocks, as the cache has them, read
    as its disk part; a transaction is a sequence of calls; a boot reads the inodes from disk.
   */
  ghost predicate Story(sb: S.Super, ninodes: nat, states: seq<State>, steps: seq<Step>, fs: seq<Fs>) {
    && |fs| == |states| == |steps| + 1
    && (forall k: nat :: k < |states| && Quiet(states[k]) ==> Shows(sb, ninodes, states[k].cur, fs[k]))
    && (forall k: nat :: k < |steps| ==> StoryStep(states[k], steps[k], states[k + 1], fs[k], fs[k + 1]))
    && (forall i: nat, j: nat :: Transaction(states, steps, i, j) ==> Performed(sb, fs[i], fs[j]))
  }

  ghost predicate Shows(sb: S.Super, ninodes: nat, d: Disk, f: Fs) {
    ReadDisk(sb, ninodes, d) == DiskOf(sb, f)
  }

  ghost predicate StoryStep(s: State, step: Step, s': State, f: Fs, f': Fs) {
    && (Quiet(s) && Quiet(s') && !step.CrashStep? ==> f' == f)
    && (Booting(s.phase) && Quiet(s') ==> f'.ino == f'.dino)
  }

  /** Every commit before step k found all inodes written back. */
  ghost predicate WrittenBefore(steps: seq<Step>, fs: seq<Fs>, k: nat) {
    |steps| < |fs| && forall j: nat :: j < k && j < |steps| && steps[j].CommitHeadStep? ==> Written(fs[j])
  }

  lemma PerformedKeeps(sb: S.Super, a: Fs, b: Fs)
    requires Performed(sb, a, b) && Good(sb, a)
    ensures Good(sb, b)
  {
    var fs: seq<Fs>, calls: seq<Call> :| Chain(sb, fs, calls) && fs[0] == a && fs[|calls|] == b;
    SoundAfter(sb, fs, calls, |calls|);
  }

  /** A quiet moment after another, or after a boot. */
  lemma QuietIsGood(g: Geometry, sb: S.Super, ninodes: nat, s: State, step: Step, f: Fs, f': Fs)
    requires LogInvariant.Inv(g, s) && Enabled(g, s, step) && !step.CrashStep? && LaidOut(g, sb)
    requires StoryStep(s, step, Do(g, s, step), f, f') && Quiet(Do(g, s, step))
    requires Shows(sb, ninodes, Do(g, s, step).cur, f')
    requires Quiet(s) ==> Good(sb, f)
    requires Booting(s.phase) ==> Sound(sb, ReadDisk(sb, ninodes, s.durable))
    requires Quiet(s) || Booting(s.phase)
    ensures Good(sb, f')
  {
    hide LogInvariant.Inv, Enabled, Do, Good, Sound, ReadDisk;
    if Booting(s.phase) {
      BootedShows(g, s, step);
      ReadsHome(g, sb, ninodes, s.durable, Do(g, s, step).cur);
      BootedIsGood(sb, f');
    }
  }

  /** What the cache shows after recovery is what was durable. */
  lemma BootedShows(g: Geometry, s: State, step: Step)
    requires LogInvariant.Inv(g, s) && Enabled(g, s, step) && !step.CrashStep? && Booting(s.phase)
    requires !Booting(Do(g, s, step).phase)
    ensures SameHome(g, s.durable, Do(g, s, step).cur)
  {
    hide LogInvariant.Inv, Enabled, Do, LogInvariant.Reflects;
    var s' := Do(g, s, step);
    LogTheorems.StepKeeps(g, s, step);
    StepHistory(g, s, step);
    HistFacts(g, s);
    HistFacts(g, s');
    assert s.hist[..s.cut] == s.hist;
    SameHistory(g, s.durable, s'.cur, s.base, s.hist);
  }

  /** In every state of a run, as long as commits find the inodes written back. */
  lemma {:induction false} RunIsGood(g: Geometry, sb: S.Super, ninodes: nat, states: seq<State>, steps: seq<Step>,
                                     fs: seq<Fs>, k: nat) returns (i: nat)
    requires IsRun(g, states, steps) && k < |states| && Story(sb, ninodes, states, steps, fs) && LaidOut(g, sb)
    requires Sound(sb, ReadDisk(sb, ninodes, states[0].durable)) && WrittenBefore(steps, fs, k)
    ensures Sound(sb, ReadDisk(sb, ninodes, states[k].durable)) && (Quiet(states[k]) ==> Good(sb, fs[k]))
    ensures !Quiet(states[k]) && !Booting(states[k].phase) ==> Open(states, steps, i, k) && Good(sb, fs[i])
  {
    hide Init, LogInvariant.Inv, Enabled, Do, Good, Sound, ReadDisk, Performed, Written;
    if k == 0 {
      i := 0;
      AtBoot(g, states[0]);
    } else {
      var s, step := states[k - 1], steps[k - 1];
      i := RunIsGood(g, sb, ninodes, states, steps, fs, k - 1);
      LogTheorems.RunKeeps(g, states, steps, k - 1);
      LogTheorems.RunKeeps(g, states, steps, k);
      assert StoryStep(s, step, states[k], fs[k - 1], fs[k]);
      if step.CrashStep? {
        AfterCrash(g, s);
      } else {
        StepHistory(g, s, step);
        HistFacts(g, states[k]);
        HistFacts(g, s);
        if step.CommitHeadStep? {
          assert Written(fs[k - 1]);
          CommittedIff(sb, ninodes, s.cur, fs[k - 1]);
        }
        if Quiet(s) || Booting(s.phase) {
          if Quiet(states[k]) {
            QuietIsGood(g, sb, ninodes, s, step, fs[k - 1], fs[k]);
          }
          i := k - 1;
        } else {
          assert Open(states, steps, i, k);
          if Quiet(states[k]) {
            assert Transaction(states, steps, i, k);
            PerformedKeeps(sb, fs[i], fs[k]);
          }
        }
      }
    }
  }

  /** What is committed is sound exactly if all inodes are written back. */
  lemma CommittedIff(sb: S.Super, ninodes: nat, d: Disk, f: Fs)
    requires Good(sb, f) && Shows(sb, ninodes, d, f)
    ensures Sound(sb, ReadDisk(sb, ninodes, d)) <==> Written(f)
  {
    hide Good, Sound, ReadDisk;
    SoundIff(sb, f);
  }

  /** The commit of step k, all earlier ones having found the inodes written back. */
  lemma CommitIff(g: Geometry, sb: S.Super, ninodes: nat, states: seq<State>, steps: seq<Step>, fs: seq<Fs>, k: nat)
    requires IsRun(g, states, steps) && k < |steps| && Story(sb, ninodes, states, steps, fs) && LaidOut(g, sb)
    requires Sound(sb, ReadDisk(sb, ninodes, states[0].durable)) && WrittenBefore(steps, fs, k)
    requires steps[k].CommitHeadStep?
    ensures Sound(sb, ReadDisk(sb, ninodes, states[k + 1].durable)) <==> Written(fs[k])
  {
    hide Init, LogInvariant.Inv, Enabled, Do, Good, Sound, ReadDisk, Performed, Written;
    var i := RunIsGood(g, sb, ninodes, states, steps, fs, k);
    LogTheorems.RunKeeps(g, states, steps, k);
    StepHistory(g, states[k], steps[k]);
    CommittedIff(sb, ninodes, states[k].cur, fs[k]);
  }

  /** Whatever the moment power is lost, recovery yields a sound image. */
  ghost predicate AlwaysSound(g: Geometry, sb: S.Super, ninodes: nat, states: seq<State>) {
    forall k: nat, d: Disk :: k < |states| && BootsTo(g, states[k].disk, d) ==> Sound(sb, ReadDisk(sb, ninodes, d))
  }

  lemma DurableBoots(g: Geometry, states: seq<State>, steps: seq<Step>, k: nat)
    requires IsRun(g, states, steps) && k < |states|
    ensures BootsTo(g, states[k].disk, states[k].durable)
  {
    hide IsRun;
    LogTheorems.RunKeeps(g, states, steps, k);
    LogTheorems.SpelledBoots(g, states[k].disk, states[k].durable);
  }

  lemma BootsAlike(g: Geometry, disk: Disk, d: Disk, e: Disk)
    requires BootsTo(g, disk, d) && BootsTo(g, disk, e)
    ensures SameHome(g, d, e)
  {
  }

  lemma {:induction false} AllWritten(g: Geometry, sb: S.Super, ninodes: nat, states: seq<State>, steps: seq<Step>,
                                      fs: seq<Fs>, m: nat)
    requires IsRun(g, states, steps) && m <= |steps| && Story(sb, ninodes, states, steps, fs) && LaidOut(g, sb)
    requires Sound(sb, ReadDisk(sb, ninodes, states[0].durable)) && AlwaysSound(g, sb, ninodes, states)
    ensures WrittenBefore(steps, fs, m)
  {
    hide IsRun, Sound, ReadDisk, Written;
    if m > 0 {
      AllWritten(g, sb, ninodes, states, steps, fs, m - 1);
      if steps[m - 1].CommitHeadStep? {
        CommitIff(g, sb, ninodes, states, steps, fs, m - 1);
        DurableBoots(g, states, steps, m);
      }
    }
  }

  /**
    Power may be lost at any moment, in a commit or a recovery too, and any number of times: what recovery yields
    always has one owner per block and a bitmap that agrees, if and only if every commit finds each inode in which a
    read has filled a pointer written back since.
   */
  lemma CrashSoundIff(g: Geometry, sb: S.Super, ninodes: nat, states: seq<State>, steps: seq<Step>, fs: seq<Fs>)
    requires IsRun(g, states, steps) && Story(sb, ninodes, states, steps, fs) && LaidOut(g, sb)
    requires Sound(sb, ReadDisk(sb, ninodes, states[0].durable))
    ensures AlwaysSound(g, sb, ninodes, states) <==> WrittenBefore(steps, fs, |steps|)
  {
    hide IsRun, Sound, ReadDisk, Written, Story;
    if AlwaysSound(g, sb, ninodes, states) {
      AllWritten(g, sb, ninodes, states, steps, fs, |steps|);
    }
    if WrittenBefore(steps, fs, |steps|) {
      forall k: nat, d: Disk | k < |states| && BootsTo(g, states[k].disk, d)
        ensures Sound(sb, ReadDisk(sb, ninodes, d))
      {
        SoundAt(g, sb, ninodes, states, steps, fs, k, d);
      }
    }
  }

  lemma SoundAt(g: Geometry, sb: S.Super, ninodes: nat, states: seq<State>, steps: seq<Step>, fs: seq<Fs>, k: nat,
                d: Disk)
    requires IsRun(g, states, steps) && Story(sb, ninodes, states, steps, fs) && LaidOut(g, sb)
    requires Sound(sb, ReadDisk(sb, ninodes, states[0].durable)) && WrittenBefore(steps, fs, |steps|)
    requires k < |states| && BootsTo(g, states[k].disk, d)
    ensures Sound(sb, ReadDisk(sb, ninodes, d))
  {
    hide Sound, ReadDisk, Written, BootsTo, SameHome, Quiet, Open;
    var i := RunIsGood(g, sb, ninodes, states, steps, fs, k);
    DurableBoots(g, states, steps, k);
    BootsAlike(g, states[k].disk, states[k].durable, d);
    ReadsHome(g, sb, ninodes, states[k].durable, d);
  }
}
