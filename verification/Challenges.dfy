/**
 WebAuthn challenges: stored with SET and a deadline, consumed with GETDEL. Both are single
 commands, so the traces of module Sessions already cover every interleaving of clients.
 */
module Challenges {
  import opened Basics
  import opened Keyspace
  import opened Sessions
  import opened SessionRuns

  predicate Puts(e: Event, id: Id) { e.op.PutChallenge? && e.op.challenge == id }

  /** Event n consumes the challenge: its GETDEL answers with a payload. */
  predicate Takes(tr: seq<Event>, ttl: int, n: nat, id: Id)
    requires n < |tr|
  {
    tr[n].op == TakeChallenge(id) && Respond(Run(tr[..n], ttl), tr[n].op, tr[n].at).Payload?
  }

  function PutCount(tr: seq<Event>, id: Id): nat {
    if tr == [] then 0 else PutCount(tr[..|tr| - 1], id) + if Puts(tr[|tr| - 1], id) then 1 else 0
  }

  function TakeCount(tr: seq<Event>, ttl: int, id: Id): nat {
    if tr == [] then 0 else
      TakeCount(tr[..|tr| - 1], ttl, id) + if Takes(tr, ttl, |tr| - 1, id) then 1 else 0
  }

  function Begun(tr: seq<Event>): nat {
    if tr == [] then 0 else Begun(tr[..|tr| - 1]) + if tr[|tr| - 1].op.PutChallenge? then 1 else 0
  }

  /** Ceremonies that got past the consumption of their challenge. */
  function Consumed(tr: seq<Event>, ttl: int): nat {
    if tr == [] then 0 else
      var n := |tr| - 1;
      Consumed(tr[..n], ttl) + if tr[n].op.TakeChallenge? && Takes(tr, ttl, n, tr[n].op.challenge) then 1 else 0
  }

  lemma ChallengesStep(st: Stores, ttl: int, op: Op, now: int)
    ensures Step(st, ttl, op, now).challenges
            == match op
               case PutChallenge(id, payload, life) => st.challenges[id := ChallengeCell(payload, now + life)]
               case TakeChallenge(id) => if Challenge(st, now, id).Some? then st.challenges - {id} else st.challenges
               case _ => st.challenges
  {
  }

  /** Each stored payload is handed out at most once: takes, plus one while it is stored, never exceed puts. */
  lemma {:induction false} SingleUse(tr: seq<Event>, ttl: int, id: Id)
    ensures TakeCount(tr, ttl, id) + (if id in Run(tr, ttl).challenges then 1 else 0) <= PutCount(tr, id)
  {
    if tr != [] {
      hide Step;
      var n := |tr| - 1;
      SingleUse(tr[..n], ttl, id);
      ChallengesStep(Run(tr[..n], ttl), ttl, tr[n].op, tr[n].at);
    }
  }

  /** Over all ids together, completed ceremonies never outnumber begun ones. */
  lemma {:induction false} CompletedWithinBegun(tr: seq<Event>, ttl: int)
    ensures Consumed(tr, ttl) + |Run(tr, ttl).challenges| <= Begun(tr)
  {
    if tr != [] {
      hide Step;
      var n := |tr| - 1;
      var st := Run(tr[..n], ttl);
      CompletedWithinBegun(tr[..n], ttl);
      ChallengesStep(st, ttl, tr[n].op, tr[n].at);
      match tr[n].op
      case PutChallenge(id, payload, life) =>
        assert st.challenges[id := ChallengeCell(payload, tr[n].at + life)].Keys == st.challenges.Keys + {id};
      case TakeChallenge(id) =>
        if id in st.challenges {
          assert (st.challenges - {id}).Keys == st.challenges.Keys - {id};
        }
      case _ =>
    }
  }

  /** What is stored for an id comes from its latest put, with nothing consumed since. */
  ghost predicate From(tr: seq<Event>, ttl: int, j: nat, id: Id, cell: ChallengeCell) {
    && j < |tr| && Puts(tr[j], id) && cell == ChallengeCell(tr[j].op.payload, tr[j].at + tr[j].op.life)
    && forall k :: j < k < |tr| ==> !Puts(tr[k], id) && !Takes(tr, ttl, k, id)
  }

  lemma {:induction false} StoredFrom(tr: seq<Event>, ttl: int, id: Id) returns (j: nat)
    requires id in Run(tr, ttl).challenges
    ensures From(tr, ttl, j, id, Run(tr, ttl).challenges[id])
  {
    hide Step;
    var n := |tr| - 1;
    var pre := tr[..n];
    ChallengesStep(Run(pre, ttl), ttl, tr[n].op, tr[n].at);
    if Puts(tr[n], id) {
      j := n;
    } else {
      j := StoredFrom(pre, ttl, id);
      forall k | j < k < |tr| ensures !Puts(tr[k], id) && !Takes(tr, ttl, k, id) {
        if k < n {
          assert pre[k] == tr[k] && pre[..k] == tr[..k];
          assert !Takes(pre, ttl, k, id);
        }
      }
    }
  }

  /**
   Every successful read answers with the payload of an earlier put of that id, before that put's
   deadline, and no other read has consumed it.
   */
  lemma TakeProvenance(tr: seq<Event>, ttl: int, n: nat, id: Id) returns (j: nat)
    requires n < |tr| && Takes(tr, ttl, n, id)
    ensures j < n && Puts(tr[j], id) && |Answers(tr, ttl)| == |tr|
    ensures Answers(tr, ttl)[n] == Payload(tr[j].op.payload)
    ensures tr[n].at < tr[j].at + tr[j].op.life
    ensures forall k :: j < k < n ==> !Puts(tr[k], id) && !Takes(tr, ttl, k, id)
  {
    AnswerAt(tr, ttl, n);
    j := StoredFrom(tr[..n], ttl, id);
    forall k | j < k < n ensures !Puts(tr[k], id) && !Takes(tr, ttl, k, id) {
      assert tr[..n][k] == tr[k] && tr[..n][..k] == tr[..k];
      assert !Takes(tr[..n], ttl, k, id);
    }
  }

  /** What was put and not consumed since is still stored. */
  lemma {:induction false} StillStored(tr: seq<Event>, ttl: int, j: nat, id: Id)
    requires j < |tr| && Puts(tr[j], id) && forall k :: j < k < |tr| ==> !Puts(tr[k], id) && !Takes(tr, ttl, k, id)
    ensures id in Run(tr, ttl).challenges
    ensures Run(tr, ttl).challenges[id] == ChallengeCell(tr[j].op.payload, tr[j].at + tr[j].op.life)
    decreases |tr|
  {
    hide Step;
    var n := |tr| - 1;
    var pre := tr[..n];
    ChallengesStep(Run(pre, ttl), ttl, tr[n].op, tr[n].at);
    if j < n {
      forall k | j < k < n ensures !Puts(pre[k], id) && !Takes(pre, ttl, k, id) {
        assert pre[k] == tr[k] && pre[..k] == tr[..k];
        assert !Takes(tr, ttl, k, id);
      }
      StillStored(pre, ttl, j, id);
      assert !Takes(tr, ttl, n, id);
    }
  }

  /** A read answers with a payload exactly if the last put of the id has not been consumed or run out. */
  lemma TakeExact(tr: seq<Event>, ttl: int, n: nat, id: Id)
    requires n < |tr| && tr[n].op == TakeChallenge(id)
    ensures |Answers(tr, ttl)| == |tr| && (Answers(tr, ttl)[n].Payload? || Answers(tr, ttl)[n] == NotFound)
    ensures Answers(tr, ttl)[n].Payload? <==>
      exists j :: 0 <= j < n && Puts(tr[j], id) && tr[n].at < tr[j].at + tr[j].op.life
                  && forall k :: j < k < n ==> !Puts(tr[k], id) && !Takes(tr, ttl, k, id)
  {
    AnswerAt(tr, ttl, n);
    if Takes(tr, ttl, n, id) {
      var j := TakeProvenance(tr, ttl, n, id);
      assert 0 <= j < n && Puts(tr[j], id);
    }
    if j :| 0 <= j < n && Puts(tr[j], id) && tr[n].at < tr[j].at + tr[j].op.life
            && forall k :: j < k < n ==> !Puts(tr[k], id) && !Takes(tr, ttl, k, id) {
      var pre := tr[..n];
      forall k | j < k < n ensures !Puts(pre[k], id) && !Takes(pre, ttl, k, id) {
        assert pre[k] == tr[k] && pre[..k] == tr[..k];
        assert !Takes(tr, ttl, k, id);
      }
      StillStored(pre, ttl, j, id);
    }
  }

  /** Two reads of the same put cannot both succeed, whatever runs between them. */
  lemma NoSecondTake(tr: seq<Event>, ttl: int, m: nat, n: nat, id: Id)
    requires m < n < |tr| && Takes(tr, ttl, m, id) && Takes(tr, ttl, n, id)
    ensures exists j :: m < j < n && Puts(tr[j], id)
  {
    var j := TakeProvenance(tr, ttl, n, id);
    assert m < n && !(j < m);
    assert tr[m].op.TakeChallenge?;
    assert m < j < n && Puts(tr[j], id);
  }
}
