/**
 The suspicious-contest detector of the cheating detector.

 Given the submissions of one user, the detector groups their verdicts by
 contest and reports every contest in which each recorded verdict is
 "SKIPPED". The grouping pass and the detection pass are methods with
 loops, as in the source; they are proved against the reference
 definitions below (ContestIds, VerdictsOf, Flagged, TotalVerdicts), whose
 properties are proved as lemmas.
 */
module CheatDetector {

  /** A key of the contest dictionary. Only equality between keys matters. */
  type ContestId = string

  /** One judged submission: the contest it was made in and its verdict label. */
  datatype Submission = Submission(contestId: ContestId, verdict: string)

  /** The outcome of one check: whether anything was flagged, and the flagged contests. */
  datatype CheaterStatus = CheaterStatus(isCheater: bool, contests: seq<ContestId>)

  /** The verdict whose exclusive presence in a contest makes it suspicious. */
  const Skipped: string := "SKIPPED"

  // ---------------------------------------------------------------------
  // Reference definitions

  /** The contests that occur in the submissions. */
  ghost function ContestIds(s: seq<Submission>): set<ContestId>
  {
    set i | 0 <= i < |s| :: s[i].contestId
  }

  /** The verdicts of the submissions made in contest `id`, in input order. */
  function VerdictsOf(s: seq<Submission>, id: ContestId): seq<string>
  {
    if s == [] then []
    else
      var last := s[|s| - 1];
      VerdictsOf(s[..|s| - 1], id) + (if last.contestId == id then [last.verdict] else [])
  }

  /** The test `verdicts.every(v => v === "SKIPPED")`: true on the empty list. */
  function AllSkipped(verdicts: seq<string>): (r: bool)
    ensures r <==> forall k :: 0 <= k < |verdicts| ==> verdicts[k] == Skipped
  {
    verdicts == [] || (verdicts[0] == Skipped && AllSkipped(verdicts[1..]))
  }

  /** The condition under which a contest's group is reported. */
  predicate IsSuspicious(verdicts: seq<string>)
  {
    |verdicts| > 0 && AllSkipped(verdicts)
  }

  /**
   The detection rule stated directly on the submissions: the user made at
   least one submission in contest `id`, and every one of them was skipped.
   */
  ghost predicate Flagged(s: seq<Submission>, id: ContestId)
  {
    && (exists i :: 0 <= i < |s| && s[i].contestId == id)
    && (forall i :: 0 <= i < |s| && s[i].contestId == id ==> s[i].verdict == Skipped)
  }

  /** The number of verdicts held by all the groups of a contest dictionary together. */
  ghost function TotalVerdicts(m: map<ContestId, seq<string>>): nat
    decreases |m|
  {
    if m == map[] then 0
    else
      var k :| k in m;
      assert (m - {k}).Keys < m.Keys;
      |m[k]| + TotalVerdicts(m - {k})
  }

  // ---------------------------------------------------------------------
  // Properties of the reference definitions

  /** Grouping keeps input order: the verdicts of a concatenation are the concatenated verdicts. */
  lemma {:induction false} VerdictsOfAppend(a: seq<Submission>, b: seq<Submission>, id: ContestId)
    ensures VerdictsOf(a + b, id) == VerdictsOf(a, id) + VerdictsOf(b, id)
    decreases |b|
  {
    if b == [] {
      assert a + b == a;
    } else {
      var b' := b[..|b| - 1];
      assert (a + b)[..|a + b| - 1] == a + b';
      VerdictsOfAppend(a, b', id);
    }
  }

  /** A contest has a non-empty group exactly when some submission was made in it. */
  lemma {:induction false} VerdictsOfNonEmpty(s: seq<Submission>, id: ContestId)
    ensures |VerdictsOf(s, id)| > 0 <==> id in ContestIds(s)
  {
    if s != [] {
      var p := s[..|s| - 1];
      VerdictsOfNonEmpty(p, id);
      assert ContestIds(s) == ContestIds(p) + {s[|s| - 1].contestId} by {
        forall i | 0 <= i < |p| ensures p[i] == s[i] { }
      }
    }
  }

  /** A contest's group is all "SKIPPED" exactly when every submission made in it was skipped. */
  lemma {:induction false} VerdictsOfAllSkipped(s: seq<Submission>, id: ContestId)
    ensures AllSkipped(VerdictsOf(s, id))
        <==> forall i :: 0 <= i < |s| && s[i].contestId == id ==> s[i].verdict == Skipped
  {
    if s != [] {
      var p, last := s[..|s| - 1], s[|s| - 1];
      var tail := if last.contestId == id then [last.verdict] else [];
      VerdictsOfAllSkipped(p, id);
      var all := VerdictsOf(s, id);
      assert all == VerdictsOf(p, id) + tail;
      assert AllSkipped(all) <==> AllSkipped(VerdictsOf(p, id)) && AllSkipped(tail) by {
        if AllSkipped(VerdictsOf(p, id)) && AllSkipped(tail) {
          forall k | 0 <= k < |all| ensures all[k] == Skipped {
            if k < |VerdictsOf(p, id)| {
              assert all[k] == VerdictsOf(p, id)[k];
            } else {
              assert all[k] == tail[k - |VerdictsOf(p, id)|];
            }
          }
        }
        if AllSkipped(all) {
          forall k | 0 <= k < |VerdictsOf(p, id)| ensures VerdictsOf(p, id)[k] == Skipped {
            assert all[k] == VerdictsOf(p, id)[k];
          }
          forall k | 0 <= k < |tail| ensures tail[k] == Skipped {
            assert all[|VerdictsOf(p, id)| + k] == tail[k];
          }
        }
      }
      forall i | 0 <= i < |p| ensures p[i] == s[i] { }
    }
  }

  /** The group-level test of the detection pass agrees with the rule stated on the submissions. */
  lemma SuspiciousIffFlagged(s: seq<Submission>, id: ContestId)
    ensures IsSuspicious(VerdictsOf(s, id)) <==> Flagged(s, id)
  {
    VerdictsOfNonEmpty(s, id);
    VerdictsOfAllSkipped(s, id);
  }

  /** A contest with one verdict other than "SKIPPED" is never reported, whatever else it holds. */
  lemma MixedContestNotSuspicious(s: seq<Submission>, i: nat)
    requires i < |s| && s[i].verdict != Skipped
    ensures !IsSuspicious(VerdictsOf(s, s[i].contestId))
  {
    VerdictsOfAllSkipped(s, s[i].contestId);
  }

  /** A contest whose only submission was skipped is reported. */
  lemma SoleSkippedSuspicious(s: seq<Submission>, i: nat)
    requires i < |s| && s[i].verdict == Skipped
    requires forall j :: 0 <= j < |s| && j != i ==> s[j].contestId != s[i].contestId
    ensures IsSuspicious(VerdictsOf(s, s[i].contestId))
  {
    SuspiciousIffFlagged(s, s[i].contestId);
  }

  /**
   Two skipped submissions in contest "9" and an accepted one in contest "10":
   only contest "9" is reported.
   */
  lemma SkippedAndAcceptedExample()
    ensures var s := [Submission("9", Skipped), Submission("9", Skipped), Submission("10", "OK")];
            && IsSuspicious(VerdictsOf(s, "9"))
            && !IsSuspicious(VerdictsOf(s, "10"))
            && forall id :: IsSuspicious(VerdictsOf(s, id)) ==> id == "9"
  {
    var s := [Submission("9", Skipped), Submission("9", Skipped), Submission("10", "OK")];
    forall id | IsSuspicious(VerdictsOf(s, id)) ensures id == "9" {
      SuspiciousIffFlagged(s, id);
    }
    SuspiciousIffFlagged(s, "9");
    assert s[0].contestId == "9";
    MixedContestNotSuspicious(s, 2);
  }

  /** The total does not depend on which key is taken out first. */
  lemma TotalVerdictsPick(m: map<ContestId, seq<string>>, k: ContestId)
    requires k in m
    ensures TotalVerdicts(m) == |m[k]| + TotalVerdicts(m - {k})
    decreases |m|
  {
    var j :| j in m && TotalVerdicts(m) == |m[j]| + TotalVerdicts(m - {j});
    if j != k {
      assert (m - {j}).Keys < m.Keys;
      assert (m - {k}).Keys < m.Keys;
      TotalVerdictsPick(m - {j}, k);
      TotalVerdictsPick(m - {k}, j);
      assert m - {j} - {k} == m - {k} - {j};
    }
  }

  /** Replacing (or adding) one group changes the total by the difference in its length. */
  lemma TotalVerdictsUpdate(m: map<ContestId, seq<string>>, k: ContestId, w: seq<string>)
    ensures TotalVerdicts(m[k := w]) + (if k in m then |m[k]| else 0) == TotalVerdicts(m) + |w|
  {
    TotalVerdictsPick(m[k := w], k);
    if k in m {
      TotalVerdictsPick(m, k);
      assert m[k := w] - {k} == m - {k};
    } else {
      assert m[k := w] - {k} == m;
    }
  }

  /** What the grouping pass has built after reading the submissions `s`. */
  ghost predicate GroupsOf(contests: map<ContestId, seq<string>>, s: seq<Submission>)
  {
    && contests.Keys == ContestIds(s)
    && (forall id :: id in contests ==> contests[id] == VerdictsOf(s, id))
    && (forall id :: id in contests ==> |contests[id]| > 0)
    && TotalVerdicts(contests) == |s|
  }

  /** One more submission adds its contest to the contests seen. */
  lemma ContestIdsSnoc(s: seq<Submission>, x: Submission)
    ensures ContestIds(s + [x]) == ContestIds(s) + {x.contestId}
  {
    var s' := s + [x];
    forall j | 0 <= j < |s| ensures s'[j] == s[j] { }
    assert s'[|s|] == x;
  }

  /** One more submission appends its verdict to the group of its own contest only. */
  lemma VerdictsOfSnoc(s: seq<Submission>, x: Submission, id: ContestId)
    ensures VerdictsOf(s + [x], id) == VerdictsOf(s, id) + (if x.contestId == id then [x.verdict] else [])
  {
  }

  /** Appending one verdict to the group of its contest accounts for one more submission. */
  lemma GroupsOfPush(contests: map<ContestId, seq<string>>, next: map<ContestId, seq<string>>,
                     s: seq<Submission>, x: Submission)
    requires GroupsOf(contests, s)
    requires var group := if x.contestId in contests then contests[x.contestId] else [];
             next == contests[x.contestId := group + [x.verdict]]
    ensures GroupsOf(next, s + [x])
  {
    var group := if x.contestId in contests then contests[x.contestId] else [];
    assert next.Keys == ContestIds(s + [x]) by {
      ContestIdsSnoc(s, x);
    }
    forall id | id in next ensures next[id] == VerdictsOf(s + [x], id) {
      VerdictsOfSnoc(s, x, id);
      if id == x.contestId && id !in contests {
        VerdictsOfNonEmpty(s, id);
      }
    }
    assert TotalVerdicts(next) == |s| + 1 by {
      TotalVerdictsUpdate(contests, x.contestId, group + [x.verdict]);
    }
  }

  // ---------------------------------------------------------------------
  // The two passes

  /**
   The grouping pass: a dictionary from every contest that occurs in the
   submissions to the verdicts seen for it, appended in input order.
   */
  method GroupByContest(submissions: seq<Submission>) returns (contests: map<ContestId, seq<string>>)
    ensures contests.Keys == ContestIds(submissions)
    ensures forall id :: id in contests ==> contests[id] == VerdictsOf(submissions, id)
    ensures forall id :: id in contests ==> |contests[id]| > 0
    ensures TotalVerdicts(contests) == |submissions|
  {
    contests := map[];
    var i := 0;
    while i < |submissions|
      invariant 0 <= i <= |submissions|
      invariant GroupsOf(contests, submissions[..i])
    {
      var Submission(contestId, verdict) := submissions[i];
      ghost var before := contests;
      if contestId !in contests {
        contests := contests[contestId := []];
      }
      contests := contests[contestId := contests[contestId] + [verdict]];
      assert submissions[..i + 1] == submissions[..i] + [submissions[i]];
      GroupsOfPush(before, contests, submissions[..i], submissions[i]);
      i := i + 1;
    }
    assert submissions[..i] == submissions;
  }

  /**
   The detection pass: every contest whose group is non-empty and all
   "SKIPPED", each reported once. The order in which the keys are visited
   is left open.
   */
  method FindSuspicious(contests: map<ContestId, seq<string>>) returns (suspicious: seq<ContestId>)
    ensures forall id :: id in suspicious <==> id in contests && IsSuspicious(contests[id])
    ensures forall i, j :: 0 <= i < j < |suspicious| ==> suspicious[i] != suspicious[j]
  {
    suspicious := [];
    var pending := contests.Keys;
    while pending != {}
      invariant pending <= contests.Keys
      invariant forall id :: id in suspicious <==> id in contests && id !in pending && IsSuspicious(contests[id])
      invariant forall i, j :: 0 <= i < j < |suspicious| ==> suspicious[i] != suspicious[j]
      decreases |pending|
    {
      var contestId :| contestId in pending;
      var verdicts := contests[contestId];
      if |verdicts| > 0 && AllSkipped(verdicts) {
        suspicious := suspicious + [contestId];
      }
      pending := pending - {contestId};
    }
  }

  /**
   One check of a user's submissions: group, detect, and report whether
   any contest was flagged together with the flagged contests.
   */
  method CheckForCheating(submissions: seq<Submission>) returns (status: CheaterStatus)
    ensures status.isCheater <==> |status.contests| > 0
    ensures forall id :: id in status.contests <==> Flagged(submissions, id)
    ensures forall i, j :: 0 <= i < j < |status.contests| ==> status.contests[i] != status.contests[j]
    ensures submissions == [] ==> status == CheaterStatus(false, [])
  {
    var contests := GroupByContest(submissions);
    var suspicious := FindSuspicious(contests);
    forall id ensures id in suspicious <==> Flagged(submissions, id) {
      SuspiciousIffFlagged(submissions, id);
      VerdictsOfNonEmpty(submissions, id);
    }
    assert |suspicious| > 0 ==> suspicious[0] in suspicious;
    status := CheaterStatus(|suspicious| > 0, suspicious);
  }

  /** A list of distinct ids whose members are exactly `x` is the one-element list `[x]`. */
  lemma DistinctSingleton(c: seq<ContestId>, x: ContestId)
    requires forall i, j :: 0 <= i < j < |c| ==> c[i] != c[j]
    requires forall id :: id in c <==> id == x
    ensures c == [x]
  {
    assert x in c;
    ListMembership(c);
  }

  /** A list with no members is empty, and the first two entries of a list are members of it. */
  lemma ListMembership(c: seq<ContestId>)
    ensures (forall id :: id !in c) ==> c == []
    ensures |c| > 1 ==> c[0] in c && c[1] in c
  {
    if c != [] {
      assert c[0] in c;
    }
  }

  /**
   The documented inputs and their results: two skipped submissions in
   contest "9" beside an accepted one in "10"; an all-skipped contest "101"
   beside a mixed contest "202"; and two unskipped submissions in contest "5".
   */
  method DocumentedExamples() returns (nineAndTen: CheaterStatus, skippedAndMixed: CheaterStatus,
                                       neverSkipped: CheaterStatus)
    ensures nineAndTen == CheaterStatus(true, ["9"])
    ensures skippedAndMixed == CheaterStatus(true, ["101"])
    ensures neverSkipped == CheaterStatus(false, [])
  {
    var s1 := [Submission("9", Skipped), Submission("9", Skipped), Submission("10", "OK")];
    nineAndTen := CheckForCheating(s1);
    assert s1[0].contestId == "9";
    DistinctSingleton(nineAndTen.contests, "9");

    var s2 := [Submission("101", Skipped), Submission("202", Skipped), Submission("202", "OK")];
    skippedAndMixed := CheckForCheating(s2);
    assert s2[0].contestId == "101";
    assert s2[2].contestId == "202";
    DistinctSingleton(skippedAndMixed.contests, "101");

    var s3 := [Submission("5", "OK"), Submission("5", "WRONG_ANSWER")];
    neverSkipped := CheckForCheating(s3);
    ListMembership(neverSkipped.contests);
  }
}
