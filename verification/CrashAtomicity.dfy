/**
  Crash atomicity of commit() and recover_from_log(), kernel/log.c: stopping after
  any number of their block writes leaves a disk that boots to the state before the
  transaction or to the state after it.
 */
module CrashAtomicity {
  import opened RedoLog

  /** The home file system once the transaction (lh, vals) is in place. */
  ghost function Committed(d: Disk, lh: seq<nat>, vals: seq<Block>): (r: Disk)
    requires |lh| == |vals|
    ensures |r| == |d|
    ensures forall b :: 0 <= b < |d| ==> r[b] == Overlay(lh, vals, b, d[b])
  {
    seq(|d|, b requires 0 <= b < |d| => Overlay(lh, vals, b, d[b]))
  }

  /** A disk with an empty log and a transaction that fits it. */
  ghost predicate Ready(g: Geometry, d: Disk, lh: seq<nat>, vals: seq<Block>) {
    && LegalImage(g, d)
    && HeadOf(g, d) == []
    && LegalHead(g, lh)
    && |lh| <= g.logSize
    && |vals| == |lh|
    && forall k :: 0 <= k < |vals| ==> |vals[k]| == g.words
  }

  // ---------------------------------------------------------------- commit

  /** Number of install writes among the first k writes of a commit of n blocks. */
  function Installs(n: nat, k: nat): (m: nat)
    ensures m <= n
  {
    if k <= n then 0 else if k <= 2 * n + 1 then k - n - 1 else n
  }

  /** The disk after k of the block writes of a commit, block by block. */
  ghost predicate MidCommit(g: Geometry, d: Disk, lh: seq<nat>, vals: seq<Block>, k: nat, e: Disk)
    requires Ready(g, d, lh, vals)
  {
    var n := |lh|;
    && ValidDisk(g, e)
    && (forall j :: 0 <= j < n && j < k ==> e[g.start + 1 + j] == vals[j])
    && e[g.start] == (if k <= n then d[g.start]
                      else if k <= 2 * n + 1 then FullHead(g, d, lh)
                      else EmptyHead(g, d, lh))
    && Installed(g, d, lh, vals, Installs(n, k), e)
  }

  /** The first m blocks of the transaction are in their home places, the rest of home is as in d. */
  ghost predicate Installed(g: Geometry, d: Disk, lh: seq<nat>, vals: seq<Block>, m: nat, e: Disk)
    requires |lh| == |vals| && m <= |lh|
  {
    && |d| == |e| == g.nblocks
    && forall b: nat :: g.IsHome(b) ==> e[b] == Overlay(lh[..m], vals[..m], b, d[b])
  }

  lemma InstallOneMore(g: Geometry, d: Disk, lh: seq<nat>, vals: seq<Block>, m: nat, e: Disk)
    requires |lh| == |vals| && m < |lh| && g.IsHome(lh[m])
    requires Installed(g, d, lh, vals, m, e)
    ensures Installed(g, d, lh, vals, m + 1, e[lh[m] := vals[m]])
  {
    assert lh[..m + 1] == lh[..m] + [lh[m]];
    assert vals[..m + 1] == vals[..m] + [vals[m]];
    forall b: nat | g.IsHome(b)
      ensures e[lh[m] := vals[m]][b] == Overlay(lh[..m + 1], vals[..m + 1], b, d[b])
    {
      OverlaySnoc(lh[..m], vals[..m], lh[m], vals[m], b, d[b]);
    }
  }

  /** The home blocks along one more write of a commit. */
  lemma InstallStep(g: Geometry, d: Disk, lh: seq<nat>, vals: seq<Block>, k: nat, e: Disk, w: Write)
    requires Ready(g, d, lh, vals)
    requires k < 2 * |lh| + 2 && 0 < |lh|
    requires Installed(g, d, lh, vals, Installs(|lh|, k), e)
    requires w == CommitWrite(g, d, lh, vals, k)
    ensures w.bno < |e| && Installed(g, d, lh, vals, Installs(|lh|, k + 1), e[w.bno := w.data])
  {
    hide FullHead, EmptyHead, Overlay;
    if |lh| < k <= 2 * |lh| {
      InstallOneMore(g, d, lh, vals, Installs(|lh|, k), e);
    }
  }

  lemma MidCommitStep(g: Geometry, d: Disk, lh: seq<nat>, vals: seq<Block>, k: nat, e: Disk, w: Write)
    requires Ready(g, d, lh, vals)
    requires k < 2 * |lh| + 2 && 0 < |lh|
    requires MidCommit(g, d, lh, vals, k, e)
    requires w == CommitWrite(g, d, lh, vals, k)
    ensures w.bno < |e| && MidCommit(g, d, lh, vals, k + 1, e[w.bno := w.data])
  {
    InstallStep(g, d, lh, vals, k, e, w);
    assert |FullHead(g, d, lh)| == g.words && |EmptyHead(g, d, lh)| == g.words;
    hide FullHead, EmptyHead, Installed, Installs, LegalImage;
  }

  lemma CommitInRange(g: Geometry, d: Disk, lh: seq<nat>, vals: seq<Block>, ws: seq<Write>)
    requires Ready(g, d, lh, vals)
    requires ws == CommitWrites(g, d, lh, vals)
    ensures InRange(d, ws)
  {
    forall i | 0 <= i < |ws| ensures ws[i].bno < |d| {
      assert ws[i] == CommitWrite(g, d, lh, vals, i);
    }
  }

  lemma CommitWriteAt(g: Geometry, d: Disk, lh: seq<nat>, vals: seq<Block>, ws: seq<Write>, k: nat)
    requires Ready(g, d, lh, vals)
    requires ws == CommitWrites(g, d, lh, vals) && k < |ws|
    ensures 0 < |lh| && k < 2 * |lh| + 2 && ws[k] == CommitWrite(g, d, lh, vals, k)
  {
  }

  lemma {:induction false} CommitPrefix(g: Geometry, d: Disk, lh: seq<nat>, vals: seq<Block>, ws: seq<Write>, k: nat)
    requires Ready(g, d, lh, vals)
    requires ws == CommitWrites(g, d, lh, vals) && InRange(d, ws)
    requires k <= |ws|
    ensures MidCommit(g, d, lh, vals, k, AfterWrites(d, ws, k))
  {
    hide MidCommit, CommitWrites, AfterWrites;
    if k == 0 {
      CommitStart(g, d, lh, vals);
      NoWrites(d, ws);
    } else {
      CommitPrefix(g, d, lh, vals, ws, k - 1);
      CommitNext(g, d, lh, vals, ws, k - 1);
    }
  }

  lemma CommitStart(g: Geometry, d: Disk, lh: seq<nat>, vals: seq<Block>)
    requires Ready(g, d, lh, vals)
    ensures MidCommit(g, d, lh, vals, 0, d)
  {
  }

  lemma CommitNext(g: Geometry, d: Disk, lh: seq<nat>, vals: seq<Block>, ws: seq<Write>, k: nat)
    requires Ready(g, d, lh, vals)
    requires ws == CommitWrites(g, d, lh, vals) && InRange(d, ws) && k < |ws|
    requires MidCommit(g, d, lh, vals, k, AfterWrites(d, ws, k))
    ensures MidCommit(g, d, lh, vals, k + 1, AfterWrites(d, ws, k + 1))
  {
    CommitWriteAt(g, d, lh, vals, ws, k);
    hide MidCommit, Ready, CommitWrites, CommitWrite;
    MidCommitStep(g, d, lh, vals, k, AfterWrites(d, ws, k), ws[k]);
  }

  /** Half-way through installing, the log on disk still determines every home block. */
  lemma MidInstallBoots(g: Geometry, d: Disk, lh: seq<nat>, vals: seq<Block>, m: nat, e: Disk)
    requires g.Valid() && ValidDisk(g, e) && |lh| == |vals| && m <= |lh|
    requires LegalHead(g, lh) && ReadableHead(e[g.start]) && HeadOf(g, e) == lh
    requires forall j :: 0 <= j < |lh| ==> e[g.start + 1 + j] == vals[j]
    requires Installed(g, d, lh, vals, m, e)
    ensures BootsTo(g, e, Committed(d, lh, vals))
  {
    assert LoggedValues(g, e, |lh|) == vals;
    forall b: nat | g.IsHome(b) ensures AfterBoot(g, e, b) == Committed(d, lh, vals)[b] {
      if b !in lh {
        assert b !in lh[..m];
      }
    }
  }

  lemma MidCommitBoots(g: Geometry, d: Disk, lh: seq<nat>, vals: seq<Block>, k: nat, e: Disk)
    requires Ready(g, d, lh, vals) && k <= 2 * |lh| + 2 && (lh == [] ==> k == 0)
    requires MidCommit(g, d, lh, vals, k, e)
    ensures BootsTo(g, e, if k <= |lh| then d else Committed(d, lh, vals))
    ensures k == 2 * |lh| + 2 ==> HeadOf(g, e) == [] && SameHome(g, e, Committed(d, lh, vals))
  {
    hide Installed, AfterBoot, Overlay;
    assert Committed(d, [], []) == d by {
      CommitNothing(d);
    }
    if k <= |lh| {
      EmptyLogBoots(g, d, lh, vals, 0, e);
      assert lh[..0] == [] && vals[..0] == [];
    } else if k <= 2 * |lh| + 1 {
      MidInstallBoots(g, d, lh, vals, Installs(|lh|, k), e);
    } else {
      EmptyLogBoots(g, d, lh, vals, |lh|, e);
      assert lh[..|lh|] == lh && vals[..|lh|] == vals;
    }
  }

  lemma CommitNothing(d: Disk)
    ensures Committed(d, [], []) == d
  {
  }

  /** With an empty log on disk, a boot finds what is in the home blocks. */
  lemma EmptyLogBoots(g: Geometry, d: Disk, lh: seq<nat>, vals: seq<Block>, m: nat, e: Disk)
    requires g.Valid() && ValidDisk(g, e) && |lh| == |vals| && m <= |lh|
    requires ReadableHead(e[g.start]) && HeadOf(g, e) == []
    requires Installed(g, d, lh, vals, m, e)
    ensures BootsTo(g, e, Committed(d, lh[..m], vals[..m]))
    ensures SameHome(g, e, Committed(d, lh[..m], vals[..m]))
  {
  }

  /**
    Crash atomicity of commit(): stopping it after any k block writes leaves a disk that
    boots to the old file system if the header write (write number |lh|) was not reached,
    and to the new one from that write on.
   */
  lemma CommitIsAtomic(g: Geometry, d: Disk, lh: seq<nat>, vals: seq<Block>, ws: seq<Write>, k: nat)
    requires Ready(g, d, lh, vals)
    requires ws == CommitWrites(g, d, lh, vals)
    requires k <= |ws|
    ensures InRange(d, ws)
    ensures BootsTo(g, AfterWrites(d, ws, k), if k <= |lh| then d else Committed(d, lh, vals))
  {
    CommitInRange(g, d, lh, vals, ws);
    CommitPrefix(g, d, lh, vals, ws, k);
    hide AfterWrites, MidCommit, BootsTo;
    MidCommitBoots(g, d, lh, vals, k, AfterWrites(d, ws, k));
  }

  /** A commit that is not interrupted leaves the new contents home and the log empty. */
  lemma CommitCompletes(g: Geometry, d: Disk, lh: seq<nat>, vals: seq<Block>, ws: seq<Write>)
    requires Ready(g, d, lh, vals)
    requires ws == CommitWrites(g, d, lh, vals)
    ensures InRange(d, ws)
    ensures var e := AfterWrites(d, ws, |ws|);
            && LegalImage(g, e) && HeadOf(g, e) == []
            && SameHome(g, e, Committed(d, lh, vals))
  {
    CommitInRange(g, d, lh, vals, ws);
    CommitPrefix(g, d, lh, vals, ws, |ws|);
    var e := AfterWrites(d, ws, |ws|);
    if lh != [] {
      hide AfterWrites, MidCommit;
      MidCommitBoots(g, d, lh, vals, |ws|, e);
    }
  }

  // ---------------------------------------------------------------- recovery

  ghost predicate MidRecovery(g: Geometry, d: Disk, k: nat, e: Disk)
    requires LegalImage(g, d)
  {
    var lh := HeadOf(g, d);
    var vals := LoggedValues(g, d, |lh|);
    && ValidDisk(g, e)
    && (forall j :: 0 <= j < |lh| ==> e[g.start + 1 + j] == vals[j])
    && e[g.start] == (if k <= |lh| then d[g.start] else EncodeHead(d[g.start], []))
    && Installed(g, d, lh, vals, if k <= |lh| then k else |lh|, e)
  }

  lemma MidRecoveryStep(g: Geometry, d: Disk, lh: seq<nat>, k: nat, e: Disk, w: Write)
    requires LegalImage(g, d)
    requires lh == HeadOf(g, d)
    requires k <= |lh|
    requires MidRecovery(g, d, k, e)
    requires w == RecoverWrite(g, d, lh, k)
    ensures w.bno < |e| && MidRecovery(g, d, k + 1, e[w.bno := w.data])
  {
    if k < |lh| {
      InstallOneMore(g, d, lh, LoggedValues(g, d, |lh|), k, e);
    }
  }

  lemma RecoverInRange(g: Geometry, d: Disk, ws: seq<Write>)
    requires LegalImage(g, d)
    requires ws == RecoverWrites(g, d, HeadOf(g, d))
    ensures InRange(d, ws)
  {
    var lh := HeadOf(g, d);
    forall i | 0 <= i < |ws| ensures ws[i].bno < |d| {
      assert ws[i] == RecoverWrite(g, d, lh, i);
    }
  }

  lemma RecoverWriteAt(g: Geometry, d: Disk, ws: seq<Write>, k: nat)
    requires LegalImage(g, d)
    requires ws == RecoverWrites(g, d, HeadOf(g, d)) && k < |ws|
    ensures k <= |HeadOf(g, d)| && ws[k] == RecoverWrite(g, d, HeadOf(g, d), k)
  {
  }

  lemma {:induction false} RecoverPrefix(g: Geometry, d: Disk, ws: seq<Write>, k: nat)
    requires LegalImage(g, d)
    requires ws == RecoverWrites(g, d, HeadOf(g, d)) && InRange(d, ws)
    requires k <= |ws|
    ensures MidRecovery(g, d, k, AfterWrites(d, ws, k))
  {
    hide MidRecovery, LegalImage, RecoverWrites, HeadOf, AfterWrites;
    if k == 0 {
      RecoverStart(g, d);
      NoWrites(d, ws);
    } else {
      RecoverPrefix(g, d, ws, k - 1);
      RecoverNext(g, d, ws, k - 1);
    }
  }

  lemma NoWrites(d: Disk, ws: seq<Write>)
    requires InRange(d, ws)
    ensures AfterWrites(d, ws, 0) == d
  {
  }

  lemma RecoverNext(g: Geometry, d: Disk, ws: seq<Write>, k: nat)
    requires LegalImage(g, d)
    requires ws == RecoverWrites(g, d, HeadOf(g, d)) && InRange(d, ws) && k < |ws|
    requires MidRecovery(g, d, k, AfterWrites(d, ws, k))
    ensures MidRecovery(g, d, k + 1, AfterWrites(d, ws, k + 1))
  {
    var lh := HeadOf(g, d);
    RecoverWriteAt(g, d, ws, k);
    hide MidRecovery, LegalImage, RecoverWrites, RecoverWrite, HeadOf;
    MidRecoveryStep(g, d, lh, k, AfterWrites(d, ws, k), ws[k]);
  }

  lemma RecoverStart(g: Geometry, d: Disk)
    requires LegalImage(g, d)
    ensures MidRecovery(g, d, 0, d)
  {
    assert HeadOf(g, d)[..0] == [];
  }

  lemma MidRecoveryBoots(g: Geometry, d: Disk, lh: seq<nat>, k: nat, e: Disk)
    requires LegalImage(g, d) && lh == HeadOf(g, d) && k <= |lh| + 1
    requires MidRecovery(g, d, k, e)
    ensures LegalImage(g, e) && forall b: nat :: g.IsHome(b) ==> AfterBoot(g, e, b) == AfterBoot(g, d, b)
    ensures k == |lh| + 1 ==> HeadOf(g, e) == [] && forall b: nat :: g.IsHome(b) ==> e[b] == AfterBoot(g, d, b)
  {
    var vals := LoggedValues(g, d, |lh|);
    if k <= |lh| {
      MidInstallBoots(g, d, lh, vals, k, e);
    } else {
      assert lh[..|lh|] == lh && vals[..|lh|] == vals;
    }
  }

  /** An interrupted recovery loses nothing: the next boot reads the same file system. */
  lemma RecoveryIsRestartable(g: Geometry, d: Disk, ws: seq<Write>, k: nat)
    requires LegalImage(g, d)
    requires ws == RecoverWrites(g, d, HeadOf(g, d))
    requires k <= |ws|
    ensures InRange(d, ws)
    ensures var e := AfterWrites(d, ws, k);
            LegalImage(g, e) && forall b: nat :: g.IsHome(b) ==> AfterBoot(g, e, b) == AfterBoot(g, d, b)
  {
    RecoverInRange(g, d, ws);
    RecoverPrefix(g, d, ws, k);
    hide AfterWrites, MidRecovery, AfterBoot;
    MidRecoveryBoots(g, d, HeadOf(g, d), k, AfterWrites(d, ws, k));
  }

  /** A recovery that runs to the end installs the log and empties it. */
  lemma RecoveryCompletes(g: Geometry, d: Disk, ws: seq<Write>)
    requires LegalImage(g, d)
    requires ws == RecoverWrites(g, d, HeadOf(g, d))
    ensures InRange(d, ws)
    ensures var e := AfterWrites(d, ws, |ws|);
            && LegalImage(g, e) && HeadOf(g, e) == []
            && forall b: nat :: g.IsHome(b) ==> e[b] == AfterBoot(g, d, b)
  {
    RecoverInRange(g, d, ws);
    RecoverPrefix(g, d, ws, |ws|);
    hide AfterWrites, MidRecovery, AfterBoot;
    MidRecoveryBoots(g, d, HeadOf(g, d), |ws|, AfterWrites(d, ws, |ws|));
  }

  /** Boot attempts that crash after crashes[0], crashes[1], ... writes, then one that finishes. */
  ghost predicate BootsThrough(g: Geometry, d: Disk, crashes: seq<nat>, e: Disk)
    decreases |crashes|
  {
    LegalImage(g, d) &&
    var ws := RecoverWrites(g, d, HeadOf(g, d));
    InRange(d, ws) &&
    if crashes == [] then e == AfterWrites(d, ws, |ws|)
    else crashes[0] <= |ws| && BootsThrough(g, AfterWrites(d, ws, crashes[0]), crashes[1..], e)
  }

  /**
    A commit cut short anywhere, followed by any number of recoveries cut short anywhere
    and one that finishes, ends with exactly the old or exactly the new home file system;
    it is the new one if and only if the commit's header write had reached the disk.
   */
  lemma CrashThenBoots(g: Geometry, d: Disk, lh: seq<nat>, vals: seq<Block>, ws: seq<Write>, k: nat,
                       crashes: seq<nat>, e: Disk)
    requires Ready(g, d, lh, vals)
    requires ws == CommitWrites(g, d, lh, vals) && InRange(d, ws)
    requires k <= |ws|
    requires BootsThrough(g, AfterWrites(d, ws, k), crashes, e)
    ensures LegalImage(g, e) && HeadOf(g, e) == []
    ensures SameHome(g, e, if k <= |lh| then d else Committed(d, lh, vals))
  {
    CommitIsAtomic(g, d, lh, vals, ws, k);
    RepeatedBoots(g, AfterWrites(d, ws, k), crashes, e);
  }

  lemma {:induction false} RepeatedBoots(g: Geometry, d: Disk, crashes: seq<nat>, e: Disk)
    requires BootsThrough(g, d, crashes, e)
    ensures LegalImage(g, e) && HeadOf(g, e) == []
    ensures forall b: nat :: g.IsHome(b) ==> e[b] == AfterBoot(g, d, b)
    decreases |crashes|
  {
    var ws := RecoverWrites(g, d, HeadOf(g, d));
    if crashes == [] {
      RecoveryCompletes(g, d, ws);
    } else {
      RecoveryIsRestartable(g, d, ws, crashes[0]);
      RepeatedBoots(g, AfterWrites(d, ws, crashes[0]), crashes[1..], e);
    }
  }
}
