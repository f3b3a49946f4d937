/** The session state held by the `App` component: the current dog, the ban
    list, the history of seen dogs and the loading flag, with the operations
    that change them. */
module SessionState {
  import opened BanList
  import opened DogProvider

  /** How one discovery ends: a dog committed at attempt `attempt`, an error
      at attempt `attempt`, or the supplied draws ran out before either. */
  datatype Outcome = Committed(dog: Dog, attempt: nat) | Errored(attempt: nat) | Exhausted

  /** The retry policy from attempt `i` on: skip rejected candidates, stop at
      the first error or the first accepted candidate. */
  function Settle(attempts: seq<Attempt>, i: nat): (r: Outcome)
    requires i <= |attempts|
    ensures r.Committed? ==> i <= r.attempt < |attempts| && attempts[r.attempt] == Accepted(r.dog)
    ensures r.Errored? ==> i <= r.attempt < |attempts| && attempts[r.attempt] == Failed
    decreases |attempts| - i
  {
    if i == |attempts| then Exhausted
    else
      match attempts[i]
      case Failed => Errored(i)
      case Rejected(_) => Settle(attempts, i + 1)
      case Accepted(d) => Committed(d, i)
  }

  /** The attempts a discovery makes, one per draw, all against the same ban list. */
  function Attempts(list: seq<string>, draws: seq<Draw>): (a: seq<Attempt>)
    ensures |a| == |draws| && forall j :: 0 <= j < |draws| ==> a[j] == Try(list, draws[j])
  {
    seq(|draws|, j requires 0 <= j < |draws| => Try(list, draws[j]))
  }

  /** A whole discovery over the draws the provider hands out. */
  function Run(list: seq<string>, draws: seq<Draw>): (r: Outcome)
    ensures r.Committed? ==> r.attempt < |draws| && draws[r.attempt].response.Message?
                             && r.dog == Candidate(draws[r.attempt].response.url, draws[r.attempt])
    ensures r.Committed? ==> !Banned(list, r.dog)
    ensures r.Errored? ==> r.attempt < |draws| && draws[r.attempt].response.Failure?
  {
    Settle(Attempts(list, draws), 0)
  }

  /** Every attempt in `attempts[i..k]` is a rejection. */
  predicate RejectedBetween(attempts: seq<Attempt>, i: nat, k: nat)
    requires i <= k <= |attempts|
  {
    forall j :: i <= j < k ==> attempts[j].Rejected?
  }

  /** The discovery ended, by a commit or an error, at attempt `k`. */
  predicate StopsAt(r: Outcome, k: nat)
  {
    (r.Committed? || r.Errored?) && r.attempt == k
  }

  /** The policy stops at attempt `k` exactly when every attempt before it was
      a rejection and attempt `k` is not. */
  lemma {:induction false} SettleStopsAt(attempts: seq<Attempt>, i: nat, k: nat)
    requires i <= k < |attempts|
    ensures RejectedBetween(attempts, i, k) && !attempts[k].Rejected? <==> StopsAt(Settle(attempts, i), k)
    decreases k - i
  {
    if i < k {
      SettleStopsAt(attempts, i + 1, k);
      assert RejectedBetween(attempts, i, k)
         <==> attempts[i].Rejected? && RejectedBetween(attempts, i + 1, k);
    }
  }

  /** The policy runs out of attempts exactly when every one of them is a rejection. */
  lemma {:induction false} ExhaustedIffAllRejected(attempts: seq<Attempt>, i: nat)
    requires i <= |attempts|
    ensures Settle(attempts, i) == Exhausted <==> RejectedBetween(attempts, i, |attempts|)
    decreases |attempts| - i
  {
    if i < |attempts| {
      ExhaustedIffAllRejected(attempts, i + 1);
      assert RejectedBetween(attempts, i, |attempts|)
         <==> attempts[i].Rejected? && RejectedBetween(attempts, i + 1, |attempts|);
    }
  }

  /** The committed dog is the first candidate that is not banned, and every
      earlier draw gave a rejected candidate. */
  lemma CommitsFirstAccepted(list: seq<string>, draws: seq<Draw>, d: Dog, k: nat)
    ensures Run(list, draws) == Committed(d, k)
        <==> k < |draws| && Try(list, draws[k]) == Accepted(d)
             && forall j :: 0 <= j < k ==> Try(list, draws[j]).Rejected?
  {
    var attempts := Attempts(list, draws);
    if k < |draws| {
      SettleStopsAt(attempts, 0, k);
    }
  }

  /** An error aborts the discovery at the first failing draw after only rejections. */
  lemma ErrsAtFirstFailure(list: seq<string>, draws: seq<Draw>, k: nat)
    ensures Run(list, draws) == Errored(k)
        <==> k < |draws| && draws[k].response.Failure?
             && forall j :: 0 <= j < k ==> Try(list, draws[j]).Rejected?
  {
    var attempts := Attempts(list, draws);
    if k < |draws| {
      SettleStopsAt(attempts, 0, k);
    }
  }

  /** The retries never end by themselves exactly when every draw gives a
      rejected candidate. */
  lemma RetriesForeverIffAllRejected(list: seq<string>, draws: seq<Draw>)
    ensures Run(list, draws) == Exhausted
        <==> forall j :: 0 <= j < |draws| ==> Try(list, draws[j]).Rejected?
  {
    ExhaustedIffAllRejected(Attempts(list, draws), 0);
  }

  /** A committed dog is well formed and none of its four attributes is in the
      ban list the discovery started with. */
  lemma CommittedIsSafe(list: seq<string>, draws: seq<Draw>)
    requires Run(list, draws).Committed?
    ensures WellFormed(Run(list, draws).dog) && !Banned(list, Run(list, draws).dog)
  {
  }

  /** With every lifespan banned, no number of retries ever commits a dog. */
  lemma AllLifespansBannedNeverCommits(list: seq<string>, draws: seq<Draw>)
    requires forall l :: l in Lifespans ==> l in list
    ensures !Run(list, draws).Committed?
  {
  }

  /** With "Large" banned, a "Large" candidate is discarded and the "Small"
      one fetched next is committed: one commit for two fetches. */
  lemma BannedSizeRetried(url: string, first: Draw, second: Draw)
    requires Breed(url) == Some("boxer")
    requires first == Draw(Message(url), 0.9, 0.6, 0.0)
    requires second == Draw(Message(url), 0.0, 0.6, 0.0)
    ensures Run(["Large"], [first, second])
         == Committed(Dog(url, Some("boxer"), "Small", "Japan", "10 - 12 years"), 1)
  {
    assert ScaledIndex(0.9, 3) == 2 && ScaledIndex(0.0, 3) == 0;
    assert ScaledIndex(0.6, 4) == 2;
    var committed := Dog(url, Some("boxer"), "Small", "Japan", "10 - 12 years");
    assert Candidate(url, first).size == "Large";
    assert Try(["Large"], first).Rejected?;
    assert Candidate(url, second) == committed;
    assert Try(["Large"], second) == Accepted(committed);
    var attempts := Attempts(["Large"], [first, second]);
    assert attempts == [Rejected(Candidate(url, first)), Accepted(committed)];
    assert Settle(attempts, 1) == Committed(committed, 1);
  }

  /** The retry loop of `fetchDog`: fetch again while the candidate is
      rejected. Returns the first draw that is not a rejection, or
      `|draws|` when the draws run out first. */
  method SkipRejected(list: seq<string>, draws: seq<Draw>) returns (i: nat)
    ensures i <= |draws| && RejectedBetween(Attempts(list, draws), 0, i)
    ensures i < |draws| ==> !Try(list, draws[i]).Rejected?
  {
    ghost var attempts := Attempts(list, draws);
    i := 0;
    while i < |draws| && Try(list, draws[i]).Rejected?
      invariant i <= |draws| == |attempts|
      invariant RejectedBetween(attempts, 0, i)
      decreases |draws| - i
    {
      assert attempts[i].Rejected?;
      i := i + 1;
    }
  }

  class Session {
    var dog: Option<Dog>
    var banList: seq<string>
    var seenDogs: seq<Dog>
    var loading: bool
    /** The ban list in force when each seen dog was committed. */
    ghost var banHistory: seq<seq<string>>

    /** The ban list has no duplicates; every seen dog was well formed and not
        banned in the list the discovery that added it started with; the
        current dog is the latest seen one. */
    ghost predicate Valid()
      reads this
    {
      NoDuplicates(banList) &&
      |banHistory| == |seenDogs| &&
      (forall i :: 0 <= i < |seenDogs| ==> WellFormed(seenDogs[i]) && !Banned(banHistory[i], seenDogs[i])) &&
      dog == (if seenDogs == [] then None else Some(seenDogs[|seenDogs| - 1]))
    }

    /** The initial state of the component. */
    constructor ()
      ensures Valid()
      ensures dog == None && banList == [] && seenDogs == [] && !loading
      ensures banHistory == []
    {
      dog := None;
      banList := [];
      seenDogs := [];
      loading := false;
      banHistory := [];
    }

    /** `banProperty`. */
    method BanProperty(v: string)
      requires Valid()
      modifies this
      ensures Valid()
      ensures banList == Ban(old(banList), v)
      ensures dog == old(dog) && seenDogs == old(seenDogs) && loading == old(loading)
      ensures banHistory == old(banHistory)
    {
      banList := Ban(banList, v);
    }

    /** `unbanProperty`. */
    method UnbanProperty(v: string)
      requires Valid()
      modifies this
      ensures Valid()
      ensures banList == Unban(old(banList), v)
      ensures dog == old(dog) && seenDogs == old(seenDogs) && loading == old(loading)
      ensures banHistory == old(banHistory)
    {
      UnbanNoDuplicates(banList, v);
      banList := Unban(banList, v);
    }

    /** `fetchDog`, retrying on banned candidates, over the draws the provider
        hands out. The ban list is read once, as the retries share the
        closure of the first call. */
    method Discover(draws: seq<Draw>) returns (outcome: Outcome)
      requires Valid()
      modifies this
      ensures Valid()
      ensures outcome == Run(old(banList), draws)
      ensures banList == old(banList) && !loading
      ensures outcome.Committed? ==> dog == Some(outcome.dog) && seenDogs == old(seenDogs) + [outcome.dog]
      ensures !outcome.Committed? ==> dog == old(dog) && seenDogs == old(seenDogs)
      ensures outcome.Committed? ==> banHistory == old(banHistory) + [old(banList)]
      ensures !outcome.Committed? ==> banHistory == old(banHistory)
    {
      loading := true;
      var list := banList;
      ghost var attempts := Attempts(list, draws);
      var i := SkipRejected(list, draws);
      if i == |draws| {
        ExhaustedIffAllRejected(attempts, 0);
        outcome := Exhausted;
      } else {
        SettleStopsAt(attempts, 0, i);
        var attempt := Try(list, draws[i]);
        if attempt.Accepted? {
          dog := Some(attempt.dog);
          seenDogs := seenDogs + [attempt.dog];
          banHistory := banHistory + [list];
          outcome := Committed(attempt.dog, i);
        } else {
          outcome := Errored(i);
        }
      }
      loading := false;
    }
  }
}
