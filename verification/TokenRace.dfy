/**
  Concurrent transactions on one row of a single-use token: SELECT … FOR UPDATE, test, UPDATE, COMMIT.
  Codes, refresh tokens, verification tokens, reset tokens and registration tickets all do this.
 */
module TokenRace {
  import opened Domain
  import opened Tables

  /** The two columns the transactions test: expires_at, and used_at or revoked_at. */
  datatype Stamp = Stamp(expiresAt: Time, stampedAt: Option<Time>) {
    predicate IsLive(at: Time) { stampedAt.None? && at < expiresAt }

    function Stamped(at: Time): Stamp { this.(stampedAt := Some(at)) }
  }

  datatype Progress =
    | Begun
    | Locked       // the row passed the test and is locked
    | Written      // the UPDATE is done, uncommitted
    | Succeeded
    | Refused

  /** A consumer, or with `consume` false a peek, which locks and tests but does not write. */
  datatype Consumer = Consumer(at: Time, consume: bool, progress: Progress) {
    predicate Holds() { progress.Locked? || progress.Written? }

    predicate HasWon() { consume && progress.Succeeded? }
  }

  /** The committed row, or None once it is deleted with its user. */
  datatype World = World(row: Option<Stamp>, consumers: map<nat, Consumer>)

  datatype Move =
    | Begin(id: nat, at: Time, consume: bool)
    | Lock(id: nat)
    | Write(id: nat)
    | Commit(id: nat)
    | Abort(id: nat)
    | RevokeAll(at: Time)   // UPDATE … WHERE revoked_at IS NULL
    | Delete                // ON DELETE CASCADE

  predicate IsFree(w: World) { forall id :: id in w.consumers ==> !w.consumers[id].Holds() }

  function Put(w: World, id: nat, progress: Progress): World
    requires id in w.consumers
  {
    w.(consumers := w.consumers[id := w.consumers[id].(progress := progress)])
  }

  /** The world after a move, or None while the move is blocked or is not the transaction's next statement. */
  function Apply(w: World, m: Move): Option<World> {
    match m
    case Begin(id, at, consume) =>
      if id in w.consumers then None else Some(w.(consumers := w.consumers[id := Consumer(at, consume, Begun)]))
    case RevokeAll(at) =>
      if !IsFree(w) then None
      else Some(if w.row.Some? && w.row.value.stampedAt.None? then w.(row := Some(w.row.value.Stamped(at))) else w)
    case Delete => if !IsFree(w) then None else Some(w.(row := None))
    case Lock(id) =>
      if id !in w.consumers || !w.consumers[id].progress.Begun? then None
      else if w.row.None? then Some(Put(w, id, Refused))
      else if !IsFree(w) then None
      else Some(Put(w, id, if w.row.value.IsLive(w.consumers[id].at) then Locked else Refused))
    case Write(id) =>
      if id in w.consumers && w.consumers[id].progress.Locked? && w.consumers[id].consume then Some(Put(w, id, Written))
      else None
    case Commit(id) =>
      if id !in w.consumers then None
      else if w.consumers[id].progress.Written? && w.row.Some? then
        Some(Put(w, id, Succeeded).(row := Some(w.row.value.Stamped(w.consumers[id].at))))
      else if w.consumers[id].progress.Locked? && !w.consumers[id].consume then Some(Put(w, id, Succeeded))
      else None
    case Abort(id) =>
      if id in w.consumers && !w.consumers[id].progress.Succeeded? then Some(Put(w, id, Refused)) else None
  }

  /** A holder's row is still live; a success was before the expiry and its stamp is still on the row. */
  predicate ConsumerFits(w: World, expiresAt: Time, id: nat) {
    id in w.consumers ==>
      var x := w.consumers[id];
      && (x.Holds() ==> w.row.Some? && w.row.value.IsLive(x.at))
      && (x.progress.Written? ==> x.consume)
      && (x.progress.Succeeded? ==> x.at < expiresAt)
      && (x.HasWon() && w.row.Some? ==> w.row.value.stampedAt == Some(x.at))
  }

  predicate OneHolder(w: World, id: nat, k: nat) {
    id in w.consumers && k in w.consumers && w.consumers[id].Holds() && w.consumers[k].Holds() ==> id == k
  }

  predicate OneWinner(w: World, id: nat, k: nat) {
    id in w.consumers && k in w.consumers && w.consumers[id].HasWon() && w.consumers[k].HasWon() ==> id == k
  }

  ghost predicate Inv(w: World, expiresAt: Time) {
    && (w.row.Some? ==> w.row.value.expiresAt == expiresAt)
    && (forall id {:trigger ConsumerFits(w, expiresAt, id)} :: ConsumerFits(w, expiresAt, id))
    && (forall id, k {:trigger OneHolder(w, id, k)} :: OneHolder(w, id, k))
    && (forall id, k {:trigger OneWinner(w, id, k)} :: OneWinner(w, id, k))
  }

  lemma MoveKeeps(w: World, expiresAt: Time, m: Move)
    requires Inv(w, expiresAt) && Apply(w, m).Some?
    ensures Inv(Apply(w, m).value, expiresAt)
  {
    var v := Apply(w, m).value;
    if m.Commit? {
      assert ConsumerFits(w, expiresAt, m.id);
    }
    forall id ensures ConsumerFits(v, expiresAt, id) {
      assert ConsumerFits(w, expiresAt, id);
      if m.Commit? { assert OneHolder(w, m.id, id); }
    }
    forall id, k {:trigger OneHolder(v, id, k)} ensures OneHolder(v, id, k) { assert OneHolder(w, id, k); }
    forall id, k {:trigger OneWinner(v, id, k)} ensures OneWinner(v, id, k) {
      assert OneWinner(w, id, k) && ConsumerFits(w, expiresAt, id) && ConsumerFits(w, expiresAt, k);
    }
  }

  /** Any interleaving of any number of transactions on a stored row. */
  ghost predicate IsTrace(expiresAt: Time, ws: seq<World>, ms: seq<Move>) {
    && |ws| == |ms| + 1
    && ws[0].consumers == map[] && (ws[0].row.Some? ==> ws[0].row.value.expiresAt == expiresAt)
    && forall i :: 0 <= i < |ms| ==> Apply(ws[i], ms[i]) == Some(ws[i + 1])
  }

  lemma {:induction false} InvAlways(expiresAt: Time, ws: seq<World>, ms: seq<Move>, i: nat)
    requires IsTrace(expiresAt, ws, ms) && i < |ws|
    ensures Inv(ws[i], expiresAt)
  {
    hide Apply;
    if i > 0 {
      InvAlways(expiresAt, ws, ms, i - 1);
      assert Apply(ws[i - 1], ms[i - 1]) == Some(ws[i]);
      MoveKeeps(ws[i - 1], expiresAt, ms[i - 1]);
    }
  }

  /** At most one consumer ever succeeds, and neither a consumer nor a peek does at or after the expiry. */
  lemma AtMostOneSuccess(expiresAt: Time, ws: seq<World>, ms: seq<Move>, i: nat, id: nat, k: nat)
    requires IsTrace(expiresAt, ws, ms) && i < |ws| && id in ws[i].consumers && k in ws[i].consumers
    ensures ws[i].consumers[id].HasWon() && ws[i].consumers[k].HasWon() ==> id == k
    ensures ws[i].consumers[id].progress.Succeeded? ==> ws[i].consumers[id].at < expiresAt
  {
    hide Apply;
    InvAlways(expiresAt, ws, ms, i);
    assert OneWinner(ws[i], id, k) && ConsumerFits(ws[i], expiresAt, id);
  }

  /**
    A success is one atomic stamping of a live row; no other statement of a consumer, and nothing a peek
    does, changes the row.
   */
  lemma SuccessIsAtomic(expiresAt: Time, ws: seq<World>, ms: seq<Move>, i: nat)
    requires IsTrace(expiresAt, ws, ms) && i < |ms| && !ms[i].RevokeAll? && !ms[i].Delete?
    ensures if ms[i].Commit? && ms[i].id in ws[i].consumers && ws[i].consumers[ms[i].id].consume then
              var at := ws[i].consumers[ms[i].id].at;
              ws[i].row.Some? && ws[i].row.value.IsLive(at) && ws[i + 1].row == Some(ws[i].row.value.Stamped(at))
            else ws[i + 1].row == ws[i].row
  {
    InvAlways(expiresAt, ws, ms, i);
    assert Apply(ws[i], ms[i]) == Some(ws[i + 1]);
    if ms[i].Commit? {
      assert ConsumerFits(ws[i], expiresAt, ms[i].id);
    }
  }

  /** While a consumer waits, the holder of the lock can commit. */
  lemma NoDeadlock(expiresAt: Time, ws: seq<World>, ms: seq<Move>, i: nat, id: nat)
    requires IsTrace(expiresAt, ws, ms) && i < |ws| && id in ws[i].consumers && ws[i].consumers[id].progress.Begun?
    requires Apply(ws[i], Lock(id)).None?
    ensures exists k :: Apply(ws[i], Write(k)).Some? || Apply(ws[i], Commit(k)).Some?
  {
    InvAlways(expiresAt, ws, ms, i);
    var k :| k in ws[i].consumers && ws[i].consumers[k].Holds();
    assert ConsumerFits(ws[i], expiresAt, k);
    assert Apply(ws[i], Write(k)).Some? || Apply(ws[i], Commit(k)).Some?;
  }

  // ---- the five tables ----

  function CodeStamp(row: Code): Stamp { Stamp(row.expiresAt, row.usedAt) }
  function RefreshStamp(row: Refresh): Stamp { Stamp(row.expiresAt, row.revokedAt) }
  function VerifyStamp(row: VerifyToken): Stamp { Stamp(row.expiresAt, row.usedAt) }
  function ResetStamp(row: ResetToken): Stamp { Stamp(row.expiresAt, row.usedAt) }
  function TicketStamp(row: Ticket): Stamp { Stamp(row.expiresAt, row.usedAt) }

  /** What one operation does to the two columns of its row. */
  predicate Stamps(before: Stamp, succeeds: bool, after: Stamp, at: Time) {
    succeeds == before.IsLive(at) && after == (if succeeds then before.Stamped(at) else before)
  }

  /** The repository operations of the five tables are such atomic stampings, and peeking at a ticket is none. */
  lemma OperationsAreStampings(g: Grants, a: Accounts, n: Entries, resets: ResetTable, t: Token, at: Time)
    ensures t in g.codes ==>
              var r := g.ConsumeCode(t, at);
              Stamps(CodeStamp(g.codes[t]), r.Ok?, CodeStamp(if r.Ok? then r.value.0.codes[t] else g.codes[t]), at)
    ensures t in g.refresh ==>
              var r := g.ConsumeRefresh(t, at);
              Stamps(RefreshStamp(g.refresh[t]), r.Ok?,
                     RefreshStamp(if r.Ok? then r.value.0.refresh[t] else g.refresh[t]), at)
    ensures t in a.verifs ==>
              var r := a.ConsumeVerifyToken(t, at);
              Stamps(VerifyStamp(a.verifs[t]), r.Ok?, VerifyStamp(if r.Ok? then r.value.0.verifs[t] else a.verifs[t]),
                     at)
    ensures t in resets ==>
              var r := ConsumeResetToken(resets, t, at);
              Stamps(ResetStamp(resets[t]), r.Ok?, ResetStamp(if r.Ok? then r.value.0[t] else resets[t]), at)
    ensures t in n.tickets ==>
              var r := n.ConsumeTicket(t, at);
              Stamps(TicketStamp(n.tickets[t]), r.Ok?,
                     TicketStamp(if r.Ok? then r.value.0.tickets[t] else n.tickets[t]), at) &&
              n.PeekTicket(t, at).Ok? == r.Ok?
  {
  }
}
