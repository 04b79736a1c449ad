/**
 What the disk promises while the system is up: after every single write since boot,
 recovery would give the state at the end of the last group whose header was written.
 */
module Durability {
  import opened Journal
  import opened Sequences

  /** The write that commits a group: a header that names blocks. */
  predicate Commits(g: Geometry, w: Write) {
    w.blockno == g.start && w.data[0] > 0
  }

  function CommitCount(g: Geometry, ws: seq<Write>): (n: nat) {
    if ws == [] then 0 else CommitCount(g, ws[..|ws| - 1]) + if Commits(g, ws[|ws| - 1]) then 1 else 0
  }

  /** A crash after j of the writes recovers to the state at the end of the last committed group. */
  ghost predicate CrashPoint(g: Geometry, boot: Disk, ws: seq<Write>, ends: seq<Disk>, j: nat)
    requires WritesFit(ws, |boot|) && j <= |ws|
  {
    && CommitCount(g, ws[..j]) < |ends| && DiskOk(g, Apply(boot, ws[..j]))
    && SameHome(g, Recovered(g, Apply(boot, ws[..j])), ends[CommitCount(g, ws[..j])])
  }

  /** ends[0] is the state after boot, ends[i] the one at the end of the i-th group. */
  ghost predicate CrashSafe(g: Geometry, boot: Disk, ws: seq<Write>, ends: seq<Disk>) {
    && WritesFit(ws, |boot|) && |ends| == CommitCount(g, ws) + 1
    && forall j :: 0 <= j <= |ws| ==> CrashPoint(g, boot, ws, ends, j)
  }

  // ----- counting commits -----------------------------------------------------------------

  lemma {:induction false} CountConcat(g: Geometry, a: seq<Write>, b: seq<Write>)
    ensures CommitCount(g, a + b) == CommitCount(g, a) + CommitCount(g, b)
  {
    if b == [] {
      assert a + b == a;
    } else {
      assert (a + b)[..|a + b| - 1] == a + b[..|b| - 1];
      CountConcat(g, a, b[..|b| - 1]);
    }
  }

  lemma {:induction false} CountNone(g: Geometry, ws: seq<Write>)
    requires forall i :: 0 <= i < |ws| ==> !Commits(g, ws[i])
    ensures CommitCount(g, ws) == 0
  {
    if ws != [] {
      CountNone(g, ws[..|ws| - 1]);
    }
  }

  /** Later crash points never recover to an earlier state. */
  lemma {:induction false} CountGrows(g: Geometry, ws: seq<Write>, i: nat, j: nat)
    requires i <= j <= |ws|
    ensures CommitCount(g, ws[..i]) <= CommitCount(g, ws[..j])
  {
    assert ws[..j] == ws[..i] + ws[i..j];
    CountConcat(g, ws[..i], ws[i..j]);
  }

  /** A commit writes exactly one committing header, right after the log blocks. */
  lemma {:induction false} CountCommit(g: Geometry, size: nat, header: Block, group: Group, k: nat)
    requires GroupOk(g, size, group) && group.blocks != [] && k <= |CommitWrites(g, header, group)|
    ensures CommitCount(g, CommitWrites(g, header, group)[..k]) == if CommittedBy(group, k) then 1 else 0
  {
    var cw := CommitWrites(g, header, group);
    var n := |group.blocks|;
    var logs := LogWrites(g, group.vals);
    var head := HeadWrite(g, header, group.blocks);
    var tail := InstallHalf(g, Encode(header, group.blocks), group);
    assert cw == logs + [head] + tail;
    if k <= n {
      CountNone(g, cw[..k]);
    } else {
      var rest := cw[n + 1..k];
      assert cw[..k] == cw[..n] + [head] + rest;
      forall i | 0 <= i < |rest| ensures !Commits(g, rest[i]) {
        assert rest[i] == tail[i];
      }
      CountNone(g, cw[..n]);
      CountNone(g, rest);
      CountConcat(g, cw[..n] + [head], rest);
      CountConcat(g, cw[..n], [head]);
      assert [head][..0] == [];
    }
  }

  lemma {:induction false} CountRecovery(g: Geometry, disk: Disk, k: nat)
    requires DiskOk(g, disk) && k <= |RecoverWrites(g, disk)|
    ensures CommitCount(g, RecoverWrites(g, disk)[..k]) == 0
  {
    CountNone(g, RecoverWrites(g, disk)[..k]);
  }

  // ----- what boot and commit keep ------------------------------------------------------------

  /** Recovery at boot, crashed at any point, is as good as finished. */
  lemma {:induction false} BootSafe(g: Geometry, boot: Disk)
    requires DiskOk(g, boot)
    ensures CrashSafe(g, boot, RecoverWrites(g, boot), [Recovered(g, boot)])
  {
    var ws := RecoverWrites(g, boot);
    assert ws[..|ws|] == ws;
    CrashInRecovery(g, boot, |ws|);
    CountRecovery(g, boot, |ws|);
    forall j | 0 <= j <= |ws| ensures CrashPoint(g, boot, ws, [Recovered(g, boot)], j) {
      CrashInRecovery(g, boot, j);
      CountRecovery(g, boot, j);
    }
  }

  /** With the header clear, the disk holds the last state. */
  lemma {:induction false} LastEnd(g: Geometry, boot: Disk, ws: seq<Write>, ends: seq<Disk>)
    requires CrashSafe(g, boot, ws, ends) && Clean(g, Apply(boot, ws))
    ensures SameHome(g, Apply(boot, ws), ends[|ends| - 1])
  {
    assert ws[..|ws|] == ws;
    assert CrashPoint(g, boot, ws, ends, |ws|);
    EmptyHeaderRecovers(g, Apply(boot, ws));
  }

  lemma {:induction false} GroupBounds(g: Geometry, disk: Disk, group: Group)
    requires Clean(g, disk) && GroupOk(g, |disk|, group)
    ensures g.start < |disk| && |group.blocks| == |group.vals| <= LOGSIZE
  {
  }

  lemma {:induction false} DuringCommit(g: Geometry, boot: Disk, ws: seq<Write>, ends: seq<Disk>, group: Group,
                                        view: Disk, k: nat)
    requires CrashSafe(g, boot, ws, ends) && Clean(g, Apply(boot, ws)) && GroupOk(g, |boot|, group)
    requires group.blocks != []
    requires SameHome(g, view, Update(Apply(boot, ws), group))
    requires k <= |CommitWrites(g, Apply(boot, ws)[g.start], group)|
    ensures var all := ws + CommitWrites(g, Apply(boot, ws)[g.start], group);
            WritesFit(all, |boot|) && CrashPoint(g, boot, all, ends + [view], |ws| + k)
  {
    hide Recovered, SameHome, CommitWrites, Update, Apply, DiskOk, CrashPoint;
    GroupBounds(g, Apply(boot, ws), group);
    var disk := Apply(boot, ws);
    var cw := CommitWrites(g, disk[g.start], group);
    var all := ws + cw;
    CrashInCommit(g, disk, group, |cw|);
    assert cw[..|cw|] == cw;
    ApplyConcat(boot, ws, cw);
    CrashInCommit(g, disk, group, k);
    ApplyConcat(boot, ws, cw[..k]);
    assert all[..|ws| + k] == ws + cw[..k];
    CountConcat(g, ws, cw[..k]);
    CountCommit(g, |boot|, disk[g.start], group, k);
    LastEnd(g, boot, ws, ends);
    PointHolds(g, boot, all, ends, view, |ws| + k, CommittedBy(group, k), disk, Update(disk, group));
  }

  lemma {:induction false} PointHolds(g: Geometry, boot: Disk, all: seq<Write>, ends: seq<Disk>, view: Disk, j: nat,
                                      done: bool, disk: Disk, updated: Disk)
    requires WritesFit(all, |boot|) && j <= |all| && |ends| > 0 && SameHome(g, disk, ends[|ends| - 1])
    requires SameHome(g, view, updated)
    requires CommitCount(g, all[..j]) == |ends| - 1 + (if done then 1 else 0) && DiskOk(g, Apply(boot, all[..j]))
    requires SameHome(g, Recovered(g, Apply(boot, all[..j])), if done then updated else disk)
    ensures CrashPoint(g, boot, all, ends + [view], j)
  {
    hide Recovered, Apply, DiskOk;
  }

  /** A commit adds one state, and no crash point before or during it sees anything in between. */
  lemma {:induction false} CommitSafe(g: Geometry, boot: Disk, ws: seq<Write>, ends: seq<Disk>, group: Group,
                                      view: Disk)
    requires CrashSafe(g, boot, ws, ends) && Clean(g, Apply(boot, ws)) && GroupOk(g, |boot|, group)
    requires group.blocks != []
    requires SameHome(g, view, Update(Apply(boot, ws), group))
    ensures CrashSafe(g, boot, ws + CommitWrites(g, Apply(boot, ws)[g.start], group), ends + [view])
  {
    hide Recovered, SameHome, CommitWrites, Update, Apply, DiskOk, Clean, GroupOk;
    GroupBounds(g, Apply(boot, ws), group);
    var cw := CommitWrites(g, Apply(boot, ws)[g.start], group);
    var all := ws + cw;
    DuringCommit(g, boot, ws, ends, group, view, |cw|);
    assert cw[..|cw|] == cw;
    CountConcat(g, ws, cw);
    CountCommit(g, |boot|, Apply(boot, ws)[g.start], group, |cw|);
    WholeCommits(g, Apply(boot, ws)[g.start], group);
    forall j | 0 <= j <= |all| ensures CrashPoint(g, boot, all, ends + [view], j) {
      if j <= |ws| {
        assert all[..j] == ws[..j] && CrashPoint(g, boot, ws, ends, j);
      } else {
        DuringCommit(g, boot, ws, ends, group, view, j - |ws|);
      }
    }
  }

  lemma {:induction false} WholeCommits(g: Geometry, header: Block, group: Group)
    requires |group.blocks| == |group.vals| <= LOGSIZE && group.blocks != []
    ensures CommittedBy(group, |CommitWrites(g, header, group)|)
  {
  }

  /**
   The machine may stop after any write.  Whatever boots then finds a disk that recovery
   accepts, and recovers the state at the end of a group: the last one whose header
   was written, so no later crash ever loses more.
   */
  lemma {:induction false} CrashRecovers(g: Geometry, boot: Disk, ws: seq<Write>, ends: seq<Disk>, i: nat, j: nat)
    requires CrashSafe(g, boot, ws, ends) && i <= j <= |ws|
    ensures WritesFit(ws[..j], |boot|) && DiskOk(g, Apply(boot, ws[..j]))
    ensures CommitCount(g, ws[..i]) <= CommitCount(g, ws[..j]) < |ends|
    ensures SameHome(g, Recovered(g, Apply(boot, ws[..j])), ends[CommitCount(g, ws[..j])])
    ensures var disk := Apply(boot, ws[..j]); CrashSafe(g, disk, RecoverWrites(g, disk), [Recovered(g, disk)])
  {
    hide Recovered, SameHome, Apply, DiskOk;
    assert CrashPoint(g, boot, ws, ends, j);
    CountGrows(g, ws, i, j);
    BootSafe(g, Apply(boot, ws[..j]));
  }
}
