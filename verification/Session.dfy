/** Ownership of the single vDC session (pkg/vdcapi/pbuf_server.go, pbuf_dispatch.go): any
    number of connections, each handled by its own goroutine, compete for it. Claiming,
    activating and releasing are separate steps that interleave freely. */
module Session {
  import opened Options
  import opened Text

  type ConnId(==, 0) = nat

  const API_VERSION_MIN := 2
  const API_VERSION_MAX := 3

  // ------------------------------------------------------------ the server

  /** The outcome of claimSessionOwner. */
  datatype Claim = Granted(replaced: Option<ConnId>) | Refused(activeDsuid: string)

  function ClaimOutcome(owner: Option<ConnId>, ownerDsuid: string, conn: ConnId, dsuid: string): Claim {
    if owner == None || owner == Some(conn) then Granted(None)
    else if EqualFold(ownerDsuid, dsuid) then Granted(owner)
    else Refused(ownerDsuid)
  }

  /** The session fields of the server, changed under its mutex. */
  class PbufServer {
    var sessionConn: Option<ConnId>
    var sessionDsuid: string

    constructor ()
      ensures sessionConn == None && sessionDsuid == ""
    {
      sessionConn, sessionDsuid := None, "";
    }

    /** A claim without a connection is granted and not recorded. */
    method ClaimSessionOwner(conn: Option<ConnId>, vdsmDsuid: string) returns (claim: Claim)
      modifies this
      ensures claim == if conn == None then Granted(None)
                       else ClaimOutcome(old(sessionConn), old(sessionDsuid), conn.value, vdsmDsuid)
      ensures conn.Some? && claim.Granted? ==> sessionConn == conn && sessionDsuid == vdsmDsuid
      ensures conn == None || claim.Refused? ==> sessionConn == old(sessionConn) && sessionDsuid == old(sessionDsuid)
    {
      if conn == None { return Granted(None); }
      if sessionConn == None {
        sessionConn, sessionDsuid := conn, vdsmDsuid;
        return Granted(None);
      }
      if sessionConn == conn {
        sessionDsuid := vdsmDsuid;
        return Granted(None);
      }
      if EqualFold(sessionDsuid, vdsmDsuid) {
        claim := Granted(sessionConn);
        sessionConn, sessionDsuid := conn, vdsmDsuid;
        return;
      }
      return Refused(sessionDsuid);
    }

    method IsSessionOwner(conn: Option<ConnId>) returns (b: bool)
      ensures b <==> conn == None || sessionConn == conn
    {
      if conn == None { return true; }
      b := sessionConn == conn;
    }

    /** The check before every session-bound message: it lets a connection through exactly when
        the machine's gate does. */
    method PassesGate(conn: ConnId, sess: Conn, ghost s: State) returns (ok: bool)
      requires Matches(s) && IdleConn(s, conn) && s.conns[conn] == sess
      ensures ok <==> Gate(s, conn)
    {
      var owner := IsSessionOwner(Some(conn));
      ok := sess.active && owner;
    }

    /** Of a connection on its way out this is the machine's release step. */
    method ReleaseSessionOwner(conn: ConnId, ghost s: State)
      modifies this
      ensures old(Matches(s)) && conn in s.conns && s.conns[conn].phase == Closing ==>
                Matches(Step(s, Release(conn))) && conn !in Step(s, Release(conn)).conns
      ensures old(sessionConn) == Some(conn) ==> sessionConn == None && sessionDsuid == ""
      ensures old(sessionConn) != Some(conn) ==> sessionConn == old(sessionConn) && sessionDsuid == old(sessionDsuid)
    {
      if sessionConn == Some(conn) {
        sessionConn, sessionDsuid := None, "";
      }
    }

    /** The fields are the owner part of machine state `s`. */
    ghost predicate Matches(s: State)
      reads this
    {
      s.owner == sessionConn && s.ownerDsuid == sessionDsuid
    }

    /** The hello case, uninterrupted: its checks in order, the claim, and the activation of
        the connection's own session record `sess`. It is the machine's hello and activate
        steps one after the other, and it succeeds exactly when the machine accepts. */
    method ProcessHello(conn: ConnId, sess: Conn, version: int, dsuid: string, ghost s: State)
      returns (reply: Reply, sess': Conn, replaced: Option<ConnId>)
      requires Matches(s) && IdleConn(s, conn) && s.conns[conn] == sess
      modifies this
      ensures Matches(Step(Step(s, Hello(conn, version, dsuid)), Activate(conn)))
      ensures sess' == Step(Step(s, Hello(conn, version, dsuid)), Activate(conn)).conns[conn]
      ensures reply == HelloOk <==> Accepted(s, Hello(conn, version, dsuid))
      ensures sess' == if reply == HelloOk then Conn(true, dsuid, Idle) else sess
      ensures reply == HelloOk ==> sessionConn == Some(conn) && sessionDsuid == dsuid
      ensures reply != HelloOk ==> sessionConn == old(sessionConn) && sessionDsuid == old(sessionDsuid)
      ensures replaced == if reply == HelloOk && old(sessionConn) != Some(conn) then old(sessionConn) else None
      ensures reply == Incompatible <==> version < 2 || version > 3
      ensures reply == MissingDsuid <==> 2 <= version <= 3 && dsuid == ""
      ensures forall a :: reply == Conflict(a) <==>
                && 2 <= version <= 3 && dsuid != ""
                && if sess.active && !EqualFold(sess.dsuid, dsuid) then a == sess.dsuid
                   else a == old(sessionDsuid) && old(sessionConn) != None && old(sessionConn) != Some(conn)
                        && !EqualFold(old(sessionDsuid), dsuid)
    {
      sess', replaced := sess, None;
      if version < API_VERSION_MIN || version > API_VERSION_MAX { return Incompatible, sess', replaced; }
      if dsuid == "" { return MissingDsuid, sess', replaced; }
      if sess.active && !EqualFold(sess.dsuid, dsuid) { return Conflict(sess.dsuid), sess', replaced; }
      var claim := ClaimSessionOwner(Some(conn), dsuid);
      if claim.Refused? { return Conflict(claim.activeDsuid), sess', replaced; }
      return HelloOk, Conn(true, dsuid, Idle), claim.replaced;
    }
  }

  datatype Reply = HelloOk | Incompatible | MissingDsuid | Conflict(active: string)

  // ------------------------------------------------- the transition system

  /** Where a connection's goroutine stands: between two messages, inside an accepted hello
      (claimed, session not yet active), or on its way out with only the release left. */
  datatype Phase = Idle | InHello(dsuid: string) | Closing

  datatype Conn = Conn(active: bool, dsuid: string, phase: Phase)

  datatype State = State(owner: Option<ConnId>, ownerDsuid: string, conns: map<ConnId, Conn>)

  const INITIAL := State(None, "", map[])

  datatype Event =
    | Connect(c: ConnId)
    | Hello(c: ConnId, version: int, dsuid: string)
    | Activate(c: ConnId)
    | Bye(c: ConnId)
    | Drop(c: ConnId)
    | Release(c: ConnId)

  predicate IdleConn(s: State, c: ConnId) {
    c in s.conns && s.conns[c].phase == Idle
  }

  /** The checks of the hello case up to and including the claim. */
  predicate Accepted(s: State, e: Event) {
    && e.Hello?
    && IdleConn(s, e.c)
    && API_VERSION_MIN <= e.version <= API_VERSION_MAX
    && e.dsuid != ""
    && (s.conns[e.c].active ==> EqualFold(s.conns[e.c].dsuid, e.dsuid))
    && ClaimOutcome(s.owner, s.ownerDsuid, e.c, e.dsuid).Granted?
  }

  /** One step; an event that is not enabled, or a hello that is turned down, changes nothing. */
  function Step(s: State, e: Event): State {
    match e
    case Connect(c) =>
      if c in s.conns then s else s.(conns := s.conns[c := Conn(false, "", Idle)])
    case Hello(c, _, dsuid) =>
      if !Accepted(s, e) then s
      else State(Some(c), dsuid, s.conns[c := s.conns[c].(phase := InHello(dsuid))])
    case Activate(c) =>
      if c !in s.conns || !s.conns[c].phase.InHello? then s
      else s.(conns := s.conns[c := Conn(true, s.conns[c].phase.dsuid, Idle)])
    case Bye(c) =>
      if !IdleConn(s, c) then s
      else s.(conns := s.conns[c := Conn(false, "", Closing)])
    case Drop(c) =>
      if !IdleConn(s, c) then s
      else s.(conns := s.conns[c := s.conns[c].(phase := Closing)])
    case Release(c) =>
      if c !in s.conns || s.conns[c].phase != Closing then s
      else if s.owner == Some(c) then State(None, "", s.conns - {c})
      else s.(conns := s.conns - {c})
  }

  function Run(s: State, es: seq<Event>): State
    decreases |es|
  {
    if es == [] then s else Step(Run(s, es[..|es| - 1]), es[|es| - 1])
  }

  lemma RunGoesOn(s: State, es: seq<Event>, e: Event)
    ensures Run(s, []) == s && Run(s, es + [e]) == Step(Run(s, es), e)
  {
    assert (es + [e])[..|es|] == es;
  }

  /** A connection in the midst of a hello or on its way out serves no message; only one that is
      on its way out releases, and only one inside a hello becomes active. */
  lemma StepsInTurn(s: State, c: ConnId, version: int, dsuid: string)
    ensures c !in s.conns || s.conns[c].phase != Idle ==>
              Step(s, Hello(c, version, dsuid)) == s && Step(s, Bye(c)) == s && Step(s, Drop(c)) == s
    ensures c !in s.conns || s.conns[c].phase != Closing ==> Step(s, Release(c)) == s
    ensures c !in s.conns || !s.conns[c].phase.InHello? ==> Step(s, Activate(c)) == s
    ensures c in s.conns ==> Step(s, Connect(c)) == s
  {
  }

  /** What every session-bound message checks before it is served. */
  predicate Gate(s: State, c: ConnId) {
    IdleConn(s, c) && s.conns[c].active && s.owner == Some(c)
  }

  predicate Inv(s: State) {
    && (s.owner == None ==> s.ownerDsuid == "")
    && (s.owner.Some? ==>
          && s.owner.value in s.conns
          && var o := s.conns[s.owner.value];
             && (o.active ==> EqualFold(o.dsuid, s.ownerDsuid))
             && (o.phase.InHello? ==> o.phase.dsuid == s.ownerDsuid)
             && (o.phase == Idle ==> o.active))
  }

  lemma StepKeepsInv(s: State, e: Event)
    requires Inv(s)
    ensures Inv(Step(s, e))
  {
  }

  lemma {:induction false} RunKeepsInv(s: State, es: seq<Event>)
    requires Inv(s)
    ensures Inv(Run(s, es))
    decreases |es|
  {
    if es != [] {
      RunKeepsInv(s, es[..|es| - 1]);
      StepKeepsInv(Run(s, es[..|es| - 1]), es[|es| - 1]);
    }
  }

  // ------------------------------------------------------------ the theorems

  /** Whoever passes the gate speaks for the recorded vdSM, and nobody else passes it. */
  lemma GateIsExclusive(es: seq<Event>, c: ConnId, d: ConnId)
    ensures var s := Run(INITIAL, es);
            && (Gate(s, c) ==> EqualFold(s.conns[c].dsuid, s.ownerDsuid) && (Gate(s, d) ==> c == d))
            && (s.owner == None ==> s.ownerDsuid == "")
  {
    RunKeepsInv(INITIAL, es);
  }

  /** The recorded vdSM changes to a different one only over a release: while there is an
      owner before and after a step, both stand for the same vdSM. */
  lemma OwnershipStaysWithVdsm(es: seq<Event>, e: Event)
    ensures var s, s' := Run(INITIAL, es), Step(Run(INITIAL, es), e);
            s.owner.Some? && s'.owner.Some? ==> EqualFold(s.ownerDsuid, s'.ownerDsuid)
  {
    RunKeepsInv(INITIAL, es);
  }

  /** At step i of a run from s the owner of the moment releases the session. */
  predicate OwnerReleases(s: State, es: seq<Event>, i: int) {
    0 <= i < |es| && es[i].Release? && Run(s, es[..i]).owner == Some(es[i].c)
  }

  ghost predicate Released(s: State, es: seq<Event>) {
    exists i :: OwnerReleases(s, es, i)
  }

  /** An owned session becomes free only by its owner's release. */
  lemma {:induction false} FreedByOwner(s: State, es: seq<Event>)
    requires s.owner.Some? && Run(s, es).owner == None
    ensures Released(s, es)
    decreases |es|
  {
    var n := |es| - 1;
    if Run(s, es[..n]).owner == None {
      FreedByOwner(s, es[..n]);
      EarlierRelease(s, es);
    } else {
      assert OwnerReleases(s, es, n);
    }
  }

  lemma EarlierRelease(s: State, es: seq<Event>)
    requires es != [] && Released(s, es[..|es| - 1])
    ensures Released(s, es)
  {
    var init := es[..|es| - 1];
    var i :| OwnerReleases(s, init, i);
    assert init[..i] == es[..i];
    assert OwnerReleases(s, es, i);
  }

  /** Over a whole stretch of a run: if the vdSM is another one at its end, the session's owner
      of some moment in between released it. */
  lemma {:induction false} NewVdsmNeedsRelease(before: seq<Event>, es: seq<Event>)
    requires var s, t := Run(INITIAL, before), Run(Run(INITIAL, before), es);
             s.owner.Some? && t.owner.Some? && !EqualFold(s.ownerDsuid, t.ownerDsuid)
    ensures Released(Run(INITIAL, before), es)
    decreases |es|
  {
    var s, n := Run(INITIAL, before), |es| - 1;
    var mid := Run(s, es[..n]);
    if mid.owner == None {
      FreedByOwner(s, es[..n]);
    } else {
      RunKeepsInv(INITIAL, before);
      RunKeepsInv(s, es[..n]);
      StepKeepsVdsm(mid, es[n]);
      NewVdsmNeedsRelease(before, es[..n]);
    }
    EarlierRelease(s, es);
  }

  lemma StepKeepsVdsm(s: State, e: Event)
    requires Inv(s)
    ensures s.owner.Some? && Step(s, e).owner.Some? ==> EqualFold(s.ownerDsuid, Step(s, e).ownerDsuid)
  {
  }

  /** An accepted hello, once the session is activated, opens the gate to that connection. */
  lemma HelloOpensGate(s: State, c: ConnId, version: int, dsuid: string)
    requires Accepted(s, Hello(c, version, dsuid))
    ensures var t := Step(Step(s, Hello(c, version, dsuid)), Activate(c));
            Gate(t, c) && t.ownerDsuid == dsuid && t.conns[c].dsuid == dsuid
  {
  }

  /** A free session is given to the first proper hello; the owner's goodbye and release free it. */
  lemma SessionComesAndGoes(s: State, c: ConnId, dsuid: string)
    requires s.owner == None && c !in s.conns && dsuid != ""
    ensures var t := Step(s, Connect(c));
            && Accepted(t, Hello(c, 3, dsuid)) && Accepted(t, Hello(c, 2, dsuid))
            && !Accepted(t, Hello(c, 1, dsuid)) && !Accepted(t, Hello(c, 4, dsuid)) && !Accepted(t, Hello(c, 3, ""))
            && var u := Step(Step(t, Hello(c, 3, dsuid)), Activate(c));
               && Gate(u, c)
               && !Gate(Step(u, Bye(c)), c)
               && Step(Step(u, Bye(c)), Release(c)) == s.(ownerDsuid := "")
               && Step(Step(u, Drop(c)), Release(c)) == s.(ownerDsuid := "")
               && Run(s, [Connect(c), Hello(c, 3, dsuid), Activate(c)]) == u
  {
    RunGoesOn(s, [], Connect(c));
    RunGoesOn(s, [Connect(c)], Hello(c, 3, dsuid));
    RunGoesOn(s, [Connect(c), Hello(c, 3, dsuid)], Activate(c));
    assert [] + [Connect(c)] == [Connect(c)];
    assert [Connect(c)] + [Hello(c, 3, dsuid)] == [Connect(c), Hello(c, 3, dsuid)];
    assert [Connect(c), Hello(c, 3, dsuid)] + [Activate(c)] == [Connect(c), Hello(c, 3, dsuid), Activate(c)];
    var t := Step(s, Connect(c));
    var u := Step(Step(t, Hello(c, 3, dsuid)), Activate(c));
    assert Step(u, Bye(c)).conns - {c} == s.conns;
    assert Step(u, Drop(c)).conns - {c} == s.conns;
  }

  /** A release by a connection that does not own the session, such as one that was
      replaced, leaves owner, recorded vdSM and every other connection alone. */
  lemma LateReleaseIsHarmless(s: State, c: ConnId)
    requires s.owner != Some(c)
    ensures var s' := Step(s, Release(c));
            && s'.owner == s.owner && s'.ownerDsuid == s.ownerDsuid
            && forall d :: d != c ==> (Gate(s', d) <==> Gate(s, d))
  {
  }

  predicate OwnHello(s: State, es: seq<Event>, c: ConnId, i: int) {
    0 <= i < |es| && es[i].Hello? && es[i].c == c && Accepted(Run(s, es[..i]), es[i])
  }

  lemma {:induction false} OwnerNeedsOwnHello(s: State, es: seq<Event>, c: ConnId)
    requires Inv(s) && s.owner != Some(c) && Run(s, es).owner == Some(c)
    ensures exists i :: OwnHello(s, es, c, i) &&
              (IdleConn(Run(s, es), c) ==> exists j :: i < j < |es| && es[j] == Activate(c))
    decreases |es|
  {
    var n := |es| - 1;
    var mid := Run(s, es[..n]);
    RunKeepsInv(s, es[..n]);
    if mid.owner != Some(c) {
      assert OwnHello(s, es, c, n);
    } else {
      OwnerNeedsOwnHello(s, es[..n], c);
      var i :| OwnHello(s, es[..n], c, i) &&
        (IdleConn(mid, c) ==> exists j :: i < j < n && es[..n][j] == Activate(c));
      assert es[..n][..i] == es[..i];
      assert OwnHello(s, es, c, i);
      if IdleConn(Run(s, es), c) {
        if IdleConn(mid, c) {
          var j :| i < j < n && es[..n][j] == Activate(c);
          assert es[j] == Activate(c);
        } else {
          assert es[n] == Activate(c);
        }
      }
    }
  }

  /** A connection that does not own the session, because it never did or because it was
      replaced, passes the gate again only after an accepted hello of its own and the
      activation that follows it. */
  lemma GateNeedsOwnHello(before: seq<Event>, es: seq<Event>, c: ConnId)
    requires var s := Run(INITIAL, before);
             s.owner != Some(c) && Gate(Run(s, es), c)
    ensures exists i, j :: OwnHello(Run(INITIAL, before), es, c, i) && i < j < |es| && es[j] == Activate(c)
  {
    RunKeepsInv(INITIAL, before);
    OwnerNeedsOwnHello(Run(INITIAL, before), es, c);
  }

  /** The takeover itself: a hello of the same vdSM on another connection is granted, shuts
      the old connection out at once and names it as the one to close. */
  lemma TakeoverReplaces(s: State, c: ConnId, d: ConnId, version: int, dsuid: string)
    requires Inv(s) && s.owner == Some(c) && IdleConn(s, d) && c != d && !s.conns[d].active
    requires API_VERSION_MIN <= version <= API_VERSION_MAX && dsuid != ""
    ensures Accepted(s, Hello(d, version, dsuid)) <==> EqualFold(s.ownerDsuid, dsuid)
    ensures EqualFold(s.ownerDsuid, dsuid) ==>
              var s' := Step(s, Hello(d, version, dsuid));
              && ClaimOutcome(s.owner, s.ownerDsuid, d, dsuid) == Granted(Some(c))
              && !Gate(s', c) && Gate(Step(s', Activate(d)), d)
  {
  }
}
