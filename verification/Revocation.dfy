/** Session revocations over whole runs of revoking, purging and the clock. */
module Revocation {
  import opened Numerals

  const RETENTION: real := 3600.0

  datatype Row = Row(sid: string, sub: string, revokedAt: real, expireAt: real)

  /** The claims of a logout token, blanks stripped; a valid one has a session or a subject. */
  datatype Claims = Claims(sid: string, sub: string)

  /** An access token: its session, subject, issue and expiry times. */
  datatype Token = Token(sid: string, sub: string, issuedAt: real, expiresAt: real)

  /** The deterministic name of a revocation: by session, or by subject and millisecond. */
  function RowName(c: Claims, now: real): string
    requires now >= 0.0
  {
    if c.sid != "" then "sid-" + c.sid else "sub-" + c.sub + "-" + Digits((now * 1000.0).Floor)
  }

  /** The row a revocation writes. */
  function RowFor(c: Claims, now: real): Row {
    Row(c.sid, c.sub, now, now + RETENTION)
  }

  type Store = map<string, Row>

  function AfterRevoke(store: Store, c: Claims, now: real): Store
    requires now >= 0.0
  {
    store[RowName(c, now) := RowFor(c, now)]
  }

  function AfterPurge(store: Store, now: real): Store {
    map n | n in store && store[n].expireAt >= now :: store[n]
  }

  predicate RowRevokes(r: Row, t: Token) {
    || (t.sid != "" && r.sid == t.sid)
    || (t.sub != "" && r.sid == "" && r.sub == t.sub && r.revokedAt > t.issuedAt)
  }

  predicate IsRevoked(store: Store, t: Token) {
    exists n :: n in store && RowRevokes(store[n], t)
  }

  /** The revocation model: rows by name, changed by upsert and remove. */
  class RevokedSessions {
    var rows: Store

    constructor ()
      ensures rows == map[]
    {
      rows := map[];
    }

    /** `revoke_session`. */
    method Revoke(c: Claims, now: real) returns (name: string)
      requires now >= 0.0
      modifies this
      ensures name == RowName(c, now) && rows == AfterRevoke(old(rows), c, now)
    {
      name := RowName(c, now);
      rows := rows[name := RowFor(c, now)];
    }

    /** `is_session_revoked`: one count over the two conditions. */
    method IsSessionRevoked(t: Token) returns (revoked: bool)
      ensures revoked == IsRevoked(rows, t)
    {
      if t.sid == "" && t.sub == "" { return false; }
      var found := set n | n in rows && RowRevokes(rows[n], t);
      revoked := found != {};
      if revoked {
        var n :| n in found;
      } else {
        assert forall n :: n in rows && RowRevokes(rows[n], t) ==> n in found;
      }
    }

    /** `purge_expired_revocations`: finds the expired rows, then removes and counts them one by one. */
    method Purge(now: real) returns (removed: nat)
      modifies this
      ensures rows == AfterPurge(old(rows), now)
      ensures removed == |set n | n in old(rows) && old(rows)[n].expireAt < now|
    {
      var expired := set n | n in rows && rows[n].expireAt < now;
      ghost var all := expired;
      removed := 0;
      while expired != {}
        invariant expired <= all && removed + |expired| == |all|
        invariant rows.Keys == old(rows).Keys - (all - expired)
        invariant forall n :: n in rows ==> rows[n] == old(rows)[n]
      {
        var n :| n in expired;
        rows := rows - {n};
        expired := expired - {n};
        removed := removed + 1;
      }
    }
  }

  // ---- Names never collide ------------------------------------------------------

  /** The subject and the time can be read back: the time is what follows the last dash. */
  lemma {:induction false} LastDash(a: string, b: string, x: string, y: string)
    requires '-' !in x && '-' !in y && a + "-" + x == b + "-" + y
    ensures a == b && x == y
  {
    var s, t := a + "-" + x, b + "-" + y;
    assert s[|a|] == '-' && t[|b|] == '-';
    assert forall i :: |a| < i < |s| ==> s[i] == x[i - |a| - 1];
    assert forall i :: |b| < i < |t| ==> t[i] == y[i - |b| - 1];
    assert |a| == |b|;
    assert s[..|a|] == a && t[..|b|] == b && s[|a| + 1..] == x && t[|b| + 1..] == y;
  }

  /** Two revocations share a row name only if they name the same session, or the same subject alone. */
  lemma SameNameSameTarget(c: Claims, now: real, d: Claims, later: real)
    requires now >= 0.0 && later >= 0.0 && RowName(c, now) == RowName(d, later)
    ensures c.sid == d.sid && (c.sid == "" ==> c.sub == d.sub)
  {
    var a, b := RowName(c, now), RowName(d, later);
    assert a[1] == (if c.sid != "" then 'i' else 'u') && b[1] == if d.sid != "" then 'i' else 'u';
    if c.sid != "" {
      assert a[4..] == c.sid && b[4..] == d.sid;
    } else {
      var x, y := Digits((now * 1000.0).Floor), Digits((later * 1000.0).Floor);
      DigitsRead((now * 1000.0).Floor);
      DigitsRead((later * 1000.0).Floor);
      assert a[4..] == c.sub + "-" + x && b[4..] == d.sub + "-" + y;
      LastDash(c.sub, d.sub, x, y);
    }
  }

  // ---- Runs -----------------------------------------------------------------------

  datatype Op = Revoke(at: real, claims: Claims) | Purge(at: real)

  /** The clock never runs backwards, and starts at or after the epoch. */
  predicate Clocked(ops: seq<Op>) {
    && (forall i :: 0 <= i < |ops| ==> ops[i].at >= 0.0)
    && (forall i, j :: 0 <= i < j < |ops| ==> ops[i].at <= ops[j].at)
  }

  function Apply(store: Store, op: Op): Store
    requires op.at >= 0.0
  {
    match op
    case Revoke(at, c) => AfterRevoke(store, c, at)
    case Purge(at) => AfterPurge(store, at)
  }

  function Run(ops: seq<Op>): Store
    requires forall i :: 0 <= i < |ops| ==> ops[i].at >= 0.0
  {
    if ops == [] then map[] else Apply(Run(ops[..|ops| - 1]), ops[|ops| - 1])
  }

  /** The revocation speaks to the token: it names its session, or its subject alone after the token was issued. */
  predicate Revokes(op: Op, t: Token) {
    op.Revoke? &&
    if op.claims.sid != "" then op.claims.sid == t.sid
    else op.claims.sub != "" && op.claims.sub == t.sub && op.at > t.issuedAt
  }

  lemma RevokesByRow(op: Op, t: Token)
    requires op.Revoke?
    ensures RowRevokes(RowFor(op.claims, op.at), t) <==> Revokes(op, t)
  {}

  /** A revocation outlives every purge of the following hour, and is gone with the first one after it. */
  lemma KeptForAnHour(store: Store, c: Claims, at: real, later: real)
    requires at >= 0.0
    ensures RowName(c, at) in AfterPurge(AfterRevoke(store, c, at), later) <==> later <= at + 3600.0
    ensures later <= at + 3600.0 ==>
      AfterPurge(AfterRevoke(store, c, at), later)[RowName(c, at)] == Row(c.sid, c.sub, at, at + 3600.0)
  {}

  /** A row that keeps the token dead until it expires by itself. */
  predicate Keeps(r: Row, t: Token) {
    RowRevokes(r, t) && r.expireAt == r.revokedAt + RETENTION && r.revokedAt > t.issuedAt
  }

  lemma {:induction false} StaysRevoked(ops: seq<Op>, i: nat, t: Token)
    requires Clocked(ops) && i < |ops| && Revokes(ops[i], t) && ops[i].at > t.issuedAt
    requires t.expiresAt <= t.issuedAt + 3600.0
    ensures (exists n :: n in Run(ops) && Keeps(Run(ops)[n], t)) || ops[|ops| - 1].at > t.expiresAt
  {
    var before, op := ops[..|ops| - 1], ops[|ops| - 1];
    if i == |ops| - 1 {
      var n := RowName(op.claims, op.at);
      RevokesByRow(op, t);
      assert Run(ops)[n] == RowFor(op.claims, op.at) && Keeps(Run(ops)[n], t);
    } else {
      StaysRevoked(before, i, t);
      if n :| n in Run(before) && Keeps(Run(before)[n], t) {
        match op
        case Revoke(at, c) =>
          if n == RowName(c, at) { RowsKnowTheirNames(before, n); OverwriteKeeps(before, c, at, n, t); }
          assert n in Run(ops) && Keeps(Run(ops)[n], t);
        case Purge(at) =>
          if Run(before)[n].expireAt >= at { assert n in Run(ops) && Keeps(Run(ops)[n], t); }
      }
    }
  }

  /** Every row is what some earlier revocation wrote under its name. */
  lemma {:induction false} RowsKnowTheirNames(ops: seq<Op>, n: string)
    requires Clocked(ops) && n in Run(ops)
    ensures exists j :: 0 <= j < |ops| && ops[j].Revoke? && n == RowName(ops[j].claims, ops[j].at)
                        && Run(ops)[n] == RowFor(ops[j].claims, ops[j].at)
  {
    var before, op := ops[..|ops| - 1], ops[|ops| - 1];
    if op.Revoke? && n == RowName(op.claims, op.at) {
    } else {
      RowsKnowTheirNames(before, n);
      var j :| 0 <= j < |before| && before[j].Revoke? && n == RowName(before[j].claims, before[j].at)
               && Run(before)[n] == RowFor(before[j].claims, before[j].at);
      assert ops[j] == before[j];
    }
  }

  /** Writing over a row that keeps a token dead writes one that does so longer. */
  lemma OverwriteKeeps(ops: seq<Op>, c: Claims, at: real, n: string, t: Token)
    requires Clocked(ops) && n in Run(ops) && Keeps(Run(ops)[n], t)
    requires at >= 0.0 && n == RowName(c, at) && forall j :: 0 <= j < |ops| ==> ops[j].at <= at
    ensures Keeps(RowFor(c, at), t)
  {
    RowsKnowTheirNames(ops, n);
    var j :| 0 <= j < |ops| && ops[j].Revoke? && n == RowName(ops[j].claims, ops[j].at)
             && Run(ops)[n] == RowFor(ops[j].claims, ops[j].at);
    SameNameSameTarget(ops[j].claims, ops[j].at, c, at);
  }

  /** A revoked session stays dead: after any further revocations, purges and time, a token issued before the
      revocation and living at most an hour is rejected or has expired. */
  lemma RevokedStaysDead(ops: seq<Op>, i: nat, t: Token, now: real)
    requires Clocked(ops) && i < |ops| && Revokes(ops[i], t) && ops[i].at > t.issuedAt
    requires t.expiresAt <= t.issuedAt + 3600.0 && ops[|ops| - 1].at <= now
    ensures IsRevoked(Run(ops), t) || now > t.expiresAt
  {
    StaysRevoked(ops, i, t);
  }

  /** Nothing else is rejected: a rejected token was named by some revocation of the run. */
  lemma RejectedWasRevoked(ops: seq<Op>, t: Token)
    requires Clocked(ops) && IsRevoked(Run(ops), t)
    ensures exists j :: 0 <= j < |ops| && Revokes(ops[j], t)
  {
    var n :| n in Run(ops) && RowRevokes(Run(ops)[n], t);
    RowsKnowTheirNames(ops, n);
    var j :| 0 <= j < |ops| && ops[j].Revoke? && Run(ops)[n] == RowFor(ops[j].claims, ops[j].at);
    RevokesByRow(ops[j], t);
  }

  /** A later login of the same user survives an earlier revocation of all of the user's sessions. */
  lemma LaterLoginAccepted(ops: seq<Op>, t: Token)
    requires Clocked(ops)
    requires forall j :: 0 <= j < |ops| && ops[j].Revoke? ==>
      (t.sid == "" || ops[j].claims.sid != t.sid) &&
      (ops[j].claims.sid == "" && ops[j].claims.sub == t.sub ==> ops[j].at <= t.issuedAt)
    ensures !IsRevoked(Run(ops), t)
  {
    if IsRevoked(Run(ops), t) { RejectedWasRevoked(ops, t); }
  }
}
