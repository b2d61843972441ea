/** Refresh-token families: each family accepts its token ids in turn, and a replay ends it. */
module RefreshFamilies {
  import opened Common

  datatype Family = Family(currentTokenId: nat, revoked: bool)

  type Families = map<nat, Family>

  /** The family lets this token through. */
  predicate Matches(fs: Families, family: nat, token: nat)
  {
    family in fs && !fs[family].revoked && fs[family].currentTokenId == token
  }

  function Advanced(fs: Families, family: nat, token: nat): (fs': Families)
  {
    if family !in fs || fs[family].revoked then fs
    else if fs[family].currentTokenId != token then fs[family := fs[family].(revoked := true)]
    else fs[family := fs[family].(currentTokenId := token + 1)]
  }

  class RefreshFamilyStore {
    var families: Families

    constructor ()
      ensures families == map[]
    {
      families := map[];
    }

    method Insert(family: nat, record: Family)
      modifies this
      ensures families == old(families)[family := record]
    {
      families := families[family := record];
    }

    method AdvanceTokenId(family: nat, presented: nat) returns (ok: bool)
      modifies this
      ensures ok <==> Matches(old(families), family, presented)
      ensures families == Advanced(old(families), family, presented)
    {
      if family !in families { return false; }
      if families[family].revoked { return false; }
      if families[family].currentTokenId != presented {
        families := families[family := families[family].(revoked := true)];
        return false;
      }
      families := families[family := families[family].(currentTokenId := families[family].currentTokenId + 1)];
      return true;
    }

    method Revoke(family: nat)
      modifies this
      ensures families == Revoked(old(families), family)
    {
      if family in families { families := families[family := families[family].(revoked := true)]; }
    }

    method Remove(family: nat)
      modifies this
      ensures families == old(families) - {family}
    {
      families := families - {family};
    }
  }

  function Revoked(fs: Families, family: nat): (fs': Families)
  {
    if family in fs then fs[family := fs[family].(revoked := true)] else fs
  }

  // ---- Runs ----

  /** The store; the generator and the ids it gave out that are not in the store yet; then history:
      the token ids accepted for each family, and the families that met a mismatch, a revoke or a
      remove while they were in the store. */
  datatype State = State(families: Families, next: nat, pending: set<nat>,
                         accepted: map<nat, seq<nat>>, ended: set<nat>)

  const INIT: State := State(map[], 1, {}, map[], {})

  /** A token pair takes the next family id; a login inserts such a family; the other calls. */
  datatype Event = Issue | Insert(family: nat) | Advance(family: nat, token: nat) | Revoke(family: nat) | Remove(family: nat)

  function AcceptedBy(s: State, family: nat): (ids: seq<nat>)
  {
    if family in s.accepted then s.accepted[family] else []
  }

  function Step(s: State, e: Event): (s': State)
  {
    match e
    case Issue => s.(next := s.next + 1, pending := s.pending + {s.next})
    case Insert(f) =>
      if f !in s.pending then s
      else s.(families := s.families[f := Family(1, false)], pending := s.pending - {f})
    case Advance(f, t) =>
      var r := s.(families := Advanced(s.families, f, t));
      if Matches(s.families, f, t) then r.(accepted := s.accepted[f := AcceptedBy(s, f) + [t]])
      else if f in s.families then r.(ended := s.ended + {f})
      else r
    case Revoke(f) =>
      s.(families := Revoked(s.families, f), ended := if f in s.families then s.ended + {f} else s.ended)
    case Remove(f) =>
      s.(families := s.families - {f}, ended := if f in s.families then s.ended + {f} else s.ended)
  }

  function Run(s: State, events: seq<Event>): (s': State)
  {
    if events == [] then s else Step(Run(s, events[..|events| - 1]), events[|events| - 1])
  }

  /** ids is 1, 2, ..., |ids|. */
  predicate Counts(ids: seq<nat>)
  {
    forall i :: 0 <= i < |ids| ==> ids[i] == i + 1
  }

  ghost predicate FamilyOk(s: State, f: nat)
  {
    && Counts(AcceptedBy(s, f))
    && (f >= s.next ==> f !in s.pending && f !in s.families && f !in s.ended && AcceptedBy(s, f) == [])
    && (f in s.pending ==> f !in s.families && f !in s.ended && AcceptedBy(s, f) == [])
    && (f in s.families ==> (s.families[f].revoked <==> f in s.ended))
    && (f in s.families && f !in s.ended ==> s.families[f].currentTokenId == |AcceptedBy(s, f)| + 1)
  }

  lemma StepKeeps(s: State, e: Event, f: nat)
    requires FamilyOk(s, f)
    ensures FamilyOk(Step(s, e), f)
  {
  }

  lemma {:induction false} RunKeeps(events: seq<Event>, f: nat)
    ensures FamilyOk(Run(INIT, events), f)
  {
    if events == [] {
    } else {
      RunKeeps(events[..|events| - 1], f);
      StepKeeps(Run(INIT, events[..|events| - 1]), events[|events| - 1], f);
    }
  }

  /** In every run the token ids accepted for a family are 1, 2, ..., n in order, each once; and a
      token is accepted next exactly when the family is in the store, has met no mismatch, revoke
      or remove, and the token is n + 1. */
  lemma AcceptedInOrder(events: seq<Event>, f: nat, t: nat)
    ensures var s := Run(INIT, events);
      && Counts(AcceptedBy(s, f))
      && (Matches(s.families, f, t) <==> f in s.families && f !in s.ended && t == |AcceptedBy(s, f)| + 1)
  {
    RunKeeps(events, f);
  }

  /** An ended family that is out of the store for good, or revoked in it. */
  predicate Closed(s: State, f: nat)
  {
    f in s.ended && f !in s.pending && f < s.next && (f in s.families ==> s.families[f].revoked)
  }

  lemma ClosedStep(s: State, e: Event, f: nat)
    requires Closed(s, f)
    ensures Closed(Step(s, e), f) && AcceptedBy(Step(s, e), f) == AcceptedBy(s, f)
  {
  }

  /** After the first mismatch, revoke or remove nothing more is accepted, whatever follows. */
  lemma {:induction false} NothingAfterTheEnd(before: seq<Event>, after: seq<Event>, f: nat)
    requires f in Run(INIT, before).ended
    ensures AcceptedBy(Run(INIT, before + after), f) == AcceptedBy(Run(INIT, before), f)
    ensures Closed(Run(INIT, before + after), f)
    decreases |after|
  {
    if after == [] {
      assert before + after == before;
      RunKeeps(before, f);
    } else {
      var n := |after| - 1;
      NothingAfterTheEnd(before, after[..n], f);
      assert (before + after)[..|before| + n] == before + after[..n];
      assert (before + after)[|before| + n] == after[n];
      ClosedStep(Run(INIT, before + after[..n]), after[n], f);
    }
  }
}
