/**
  Concurrent guarded UPDATEs on one invite: an UPDATE matches the committed row, waits for its
  lock, tests its WHERE clause again and only then writes (READ COMMITTED).
 */
module InviteRace {
  import opened Domain
  import opened Tables

  datatype Kind = Consume | Revoke

  datatype Progress = Begun | Matched | Written | Succeeded | Missed

  datatype Update = Update(kind: Kind, at: Time, progress: Progress)

  /** The WHERE clause. */
  predicate Guard(row: Invite, u: Update) {
    row.usedAt.None? && row.revokedAt.None? && (u.kind == Consume ==> u.at < row.expiresAt)
  }

  function Set(row: Invite, u: Update): Invite {
    match u.kind
    case Consume => row.(usedAt := Some(u.at))
    case Revoke => row.(revokedAt := Some(u.at))
  }

  datatype World = World(row: Invite, updates: map<nat, Update>)

  datatype Move =
    | Begin(id: nat, kind: Kind, at: Time)
    | Match(id: nat)
    | Write(id: nat)
    | Commit(id: nat)
    | Abort(id: nat)

  predicate IsFree(w: World) { forall id :: id in w.updates ==> !w.updates[id].progress.Written? }

  function Put(w: World, id: nat, progress: Progress): World
    requires id in w.updates
  {
    w.(updates := w.updates[id := w.updates[id].(progress := progress)])
  }

  function Apply(w: World, m: Move): Option<World> {
    match m
    case Begin(id, kind, at) =>
      if id in w.updates then None else Some(w.(updates := w.updates[id := Update(kind, at, Begun)]))
    case Match(id) =>
      if id !in w.updates || !w.updates[id].progress.Begun? then None
      else Some(Put(w, id, if Guard(w.row, w.updates[id]) then Matched else Missed))
    case Write(id) =>
      if id !in w.updates || !w.updates[id].progress.Matched? || !IsFree(w) then None
      else Some(Put(w, id, if Guard(w.row, w.updates[id]) then Written else Missed))
    case Commit(id) =>
      if id !in w.updates || !w.updates[id].progress.Written? then None
      else Some(Put(w, id, Succeeded).(row := Set(w.row, w.updates[id])))
    case Abort(id) =>
      if id !in w.updates || w.updates[id].progress.Succeeded? then None else Some(Put(w, id, Missed))
  }

  predicate UpdateFits(w: World, id: nat) {
    id in w.updates ==>
      var u := w.updates[id];
      && (u.progress.Written? ==> Guard(w.row, u))
      && (u.progress.Succeeded? ==>
            if u.kind == Consume then w.row.usedAt == Some(u.at) && u.at < w.row.expiresAt
            else w.row.revokedAt == Some(u.at))
  }

  /** At most one update holds the lock, and at most one has succeeded. */
  predicate OneOf(w: World, id: nat, k: nat) {
    id in w.updates && k in w.updates ==>
      && (w.updates[id].progress.Written? && w.updates[k].progress.Written? ==> id == k)
      && (w.updates[id].progress.Succeeded? && w.updates[k].progress.Succeeded? ==> id == k)
  }

  ghost predicate Inv(w: World) {
    && (w.row.usedAt.None? || w.row.revokedAt.None?)
    && (forall id {:trigger UpdateFits(w, id)} :: UpdateFits(w, id))
    && (forall id, k {:trigger OneOf(w, id, k)} :: OneOf(w, id, k))
  }

  lemma MoveKeeps(w: World, m: Move)
    requires Inv(w) && Apply(w, m).Some?
    ensures Inv(Apply(w, m).value)
  {
    var v := Apply(w, m).value;
    if m.Commit? {
      assert UpdateFits(w, m.id);
    }
    forall id ensures UpdateFits(v, id) {
      assert UpdateFits(w, id);
      if m.Commit? { assert OneOf(w, m.id, id); }
    }
    forall id, k {:trigger OneOf(v, id, k)} ensures OneOf(v, id, k) {
      assert OneOf(w, id, k) && UpdateFits(w, id) && UpdateFits(w, k);
    }
  }

  /** Any interleaving of consumptions and revocations of an invite that is not both used and revoked. */
  ghost predicate IsTrace(ws: seq<World>, ms: seq<Move>) {
    && |ws| == |ms| + 1
    && ws[0].updates == map[] && (ws[0].row.usedAt.None? || ws[0].row.revokedAt.None?)
    && forall i :: 0 <= i < |ms| ==> Apply(ws[i], ms[i]) == Some(ws[i + 1])
  }

  lemma {:induction false} InvAlways(ws: seq<World>, ms: seq<Move>, i: nat)
    requires IsTrace(ws, ms) && i < |ws|
    ensures Inv(ws[i])
  {
    hide Apply;
    if i > 0 {
      InvAlways(ws, ms, i - 1);
      assert Apply(ws[i - 1], ms[i - 1]) == Some(ws[i]);
      MoveKeeps(ws[i - 1], ms[i - 1]);
    }
  }

  /**
    An invite is never both used and revoked, at most one update of any kind succeeds, and no
    consumption at or after the expiry.
   */
  lemma UsedOrRevokedOnce(ws: seq<World>, ms: seq<Move>, i: nat, id: nat, k: nat)
    requires IsTrace(ws, ms) && i < |ws| && id in ws[i].updates && k in ws[i].updates
    ensures ws[i].row.usedAt.None? || ws[i].row.revokedAt.None?
    ensures ws[i].updates[id].progress.Succeeded? && ws[i].updates[k].progress.Succeeded? ==> id == k
    ensures ws[i].updates[id].progress.Succeeded? && ws[i].updates[id].kind == Consume ==>
              ws[i].updates[id].at < ws[i].row.expiresAt
  {
    hide Apply;
    InvAlways(ws, ms, i);
    assert OneOf(ws[i], id, k) && UpdateFits(ws[i], id);
  }

  /** A success is one atomic ConsumeInvite or RevokeInvite on the row as it is at that moment. */
  lemma SuccessIsAtomic(ws: seq<World>, ms: seq<Move>, i: nat, n: Entries, invite: Token)
    requires IsTrace(ws, ms) && i < |ms| && invite in n.invites && n.invites[invite] == ws[i].row
    ensures if ms[i].Commit? then
              ms[i].id in ws[i].updates &&
              var u := ws[i].updates[ms[i].id];
              (if u.kind == Consume then n.ConsumeInvite(invite, u.at) else n.RevokeInvite(invite, u.at))
              == Ok(n.(invites := n.invites[invite := ws[i + 1].row]))
            else ws[i + 1].row == ws[i].row
  {
    InvAlways(ws, ms, i);
    assert Apply(ws[i], ms[i]) == Some(ws[i + 1]);
    if ms[i].Commit? {
      assert UpdateFits(ws[i], ms[i].id);
    }
  }
}
