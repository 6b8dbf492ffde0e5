/**
 Refresh-token rotation with reuse detection. Signatures, hashes and random ids are abstract: a presented
 token says whether its signature verifies, which row it names, and what it hashes to.
 */
module TokenRotation {
  import opened Common

  type Jti = string
  type UserId = string

  /** A refresh-token row; `serial` stands for createdAt. */
  datatype Token = Token(
    user: UserId, serial: nat, hash: string, expiresAt: int, revokedAt: Option<int>, replacedBy: Option<Jti>)

  type Table = map<Jti, Token>

  datatype Presented = Presented(verifies: bool, jti: Jti, hash: string)

  /** What issuing a token needs from outside: its random id, the hash of the signed token, its expiry. */
  datatype Fresh = Fresh(jti: Jti, hash: string, expiresAt: int)

  // ---------- What each call does ----------

  function Issued(t: Table, user: UserId, f: Fresh): (Table, Result<Jti>) {
    if f.jti in t then (t, Err(DatabaseError))
    else (t[f.jti := Token(user, |t|, f.hash, f.expiresAt, None, None)], Ok(f.jti))
  }

  function RevokedAll(t: Table, user: UserId, now: int): Table {
    map j | j in t :: if t[j].user == user && t[j].revokedAt.None? then t[j].(revokedAt := Some(now)) else t[j]
  }

  function Rotated(t: Table, p: Presented, now: int, f: Fresh): (Table, Result<Jti>) {
    if !p.verifies || p.jti !in t then (t, Err(Unauthorized))
    else
      var stored := t[p.jti];
      if stored.revokedAt.Some? then (RevokedAll(t, stored.user, now), Err(Unauthorized))
      else if stored.expiresAt < now || p.hash != stored.hash then (t, Err(Unauthorized))
      else
        var (u, next) := Issued(t, stored.user, f);
        if next.Err? then (u, next)
        else (u[p.jti := stored.(revokedAt := Some(now), replacedBy := Some(f.jti))], next)
  }

  function Revoked(t: Table, p: Presented, now: int): (Table, Result<()>) {
    if !p.verifies then (t, Err(Unauthorized))
    else if p.jti in t && t[p.jti].revokedAt.None? then (t[p.jti := t[p.jti].(revokedAt := Some(now))], Ok(()))
    else (t, Ok(()))
  }

  class TokensService {
    var tokens: Table

    constructor ()
      ensures tokens == map[]
    {
      tokens := map[];
    }

    method IssueTokenPair(user: UserId, f: Fresh) returns (r: Result<Jti>)
      modifies this
      ensures (tokens, r) == Issued(old(tokens), user, f)
    {
      if f.jti in tokens {
        return Err(DatabaseError);
      }
      tokens := tokens[f.jti := Token(user, |tokens|, f.hash, f.expiresAt, None, None)];
      r := Ok(f.jti);
    }

    method RotateRefreshToken(p: Presented, now: int, f: Fresh) returns (r: Result<Jti>)
      modifies this
      ensures (tokens, r) == Rotated(old(tokens), p, now, f)
    {
      if !p.verifies {
        return Err(Unauthorized);
      }
      if p.jti !in tokens {
        return Err(Unauthorized);
      }
      var stored := tokens[p.jti];
      if stored.revokedAt.Some? {
        RevokeAllForUser(stored.user, now);
        return Err(Unauthorized);
      }
      if stored.expiresAt < now {
        return Err(Unauthorized);
      }
      if p.hash != stored.hash {
        return Err(Unauthorized);
      }
      var next := IssueTokenPair(stored.user, f);
      if next.Err? {
        return next;
      }
      tokens := tokens[p.jti := tokens[p.jti].(revokedAt := Some(now), replacedBy := Some(next.value))];
      r := next;
    }

    method Revoke(p: Presented, now: int) returns (r: Result<()>)
      modifies this
      ensures (tokens, r) == Revoked(old(tokens), p, now)
    {
      if !p.verifies {
        return Err(Unauthorized);
      }
      if p.jti in tokens && tokens[p.jti].revokedAt.None? {
        tokens := tokens[p.jti := tokens[p.jti].(revokedAt := Some(now))];
      }
      r := Ok(());
    }

    /** updateMany: every live row of the user, in any order. */
    method RevokeAllForUser(user: UserId, now: int)
      modifies this
      ensures tokens == RevokedAll(old(tokens), user, now)
    {
      var todo := tokens.Keys;
      while todo != {}
        invariant todo <= old(tokens).Keys && tokens.Keys == old(tokens).Keys
        invariant forall j :: j in tokens ==>
          tokens[j] == if j in todo then old(tokens)[j] else RevokedAll(old(tokens), user, now)[j]
        decreases todo
      {
        var j :| j in todo;
        if tokens[j].user == user && tokens[j].revokedAt.None? {
          tokens := tokens[j := tokens[j].(revokedAt := Some(now))];
        }
        todo := todo - {j};
      }
    }
  }

  // ---------- Chains ----------

  predicate Live(t: Table, j: Jti) {
    j in t && t[j].revokedAt.None?
  }

  /** A replaced token is revoked, and its replacement is a younger token of the same user. */
  ghost predicate LinkOk(t: Table, j: Jti)
    requires j in t
  {
    && t[j].serial < |t|
    && (t[j].replacedBy.Some? ==>
          var n := t[j].replacedBy.value;
          n in t && t[n].user == t[j].user && t[j].serial < t[n].serial && t[j].revokedAt.Some?)
  }

  ghost predicate LinksInjective(t: Table) {
    forall i, j {:trigger t[i].replacedBy, t[j].replacedBy} ::
      i in t && j in t && t[i].replacedBy.Some? && t[i].replacedBy == t[j].replacedBy ==> i == j
  }

  ghost predicate Inv(t: Table) {
    (forall j {:trigger LinkOk(t, j)} :: j in t ==> LinkOk(t, j)) && LinksInjective(t)
  }

  /** The token reached by following `n` replacement links. */
  ghost function Follow(t: Table, j: Jti, n: nat): Option<Jti>
    decreases n
  {
    if n == 0 then Some(j)
    else if j !in t || t[j].replacedBy.None? then None
    else Follow(t, t[j].replacedBy.value, n - 1)
  }

  lemma {:induction false} ChainsGrowYounger(t: Table, j: Jti, n: nat)
    requires Inv(t) && j in t && Follow(t, j, n).Some?
    ensures Follow(t, j, n).value in t
    ensures t[Follow(t, j, n).value].serial >= t[j].serial + n
    ensures t[Follow(t, j, n).value].user == t[j].user
    ensures n > 0 ==> !Live(t, j)
    decreases n
  {
    assert LinkOk(t, j);
    if n == 0 {
    } else {
      ChainsGrowYounger(t, t[j].replacedBy.value, n - 1);
    }
  }

  lemma {:induction false} FollowSplits(t: Table, j: Jti, n: nat, m: nat)
    requires Follow(t, j, n).Some?
    ensures Follow(t, j, n + m) == Follow(t, Follow(t, j, n).value, m)
    decreases n
  {
    if n == 0 {
    } else {
      FollowSplits(t, t[j].replacedBy.value, n - 1, m);
    }
  }

  /** No cycles; and in a chain only the last token can be live, so a chain has at most one live token. */
  lemma ChainsAreSound(t: Table, first: Jti, n: nat, m: nat)
    requires Inv(t) && first in t && Follow(t, first, n).Some? && Follow(t, first, m).Some?
    ensures Follow(t, first, n) == Follow(t, first, m) <==> n == m
    ensures n < m ==> !Live(t, Follow(t, first, n).value)
    ensures Live(t, Follow(t, first, n).value) && Live(t, Follow(t, first, m).value) ==> n == m
  {
    ChainsGrowYounger(t, first, n);
    ChainsGrowYounger(t, first, m);
    if n < m {
      FollowSplits(t, first, n, m - n);
      ChainsGrowYounger(t, Follow(t, first, n).value, m - n);
    } else if m < n {
      FollowSplits(t, first, m, n - m);
      ChainsGrowYounger(t, Follow(t, first, m).value, n - m);
    }
  }

  // ---------- Every call keeps the links sound and never revives a token ----------

  /** Rows stay, keep their owner and age, and once revoked keep their revocation time and replacement. */
  ghost predicate Evolves(t: Table, u: Table) {
    forall j {:trigger t[j]} {:trigger u[j]} :: j in t ==>
      && j in u && u[j].user == t[j].user && u[j].serial == t[j].serial
      && (t[j].revokedAt.Some? ==> u[j] == t[j])
  }

  lemma IssueKeepsInv(t: Table, user: UserId, f: Fresh)
    requires Inv(t)
    ensures Inv(Issued(t, user, f).0) && Evolves(t, Issued(t, user, f).0)
  {
    var u := Issued(t, user, f).0;
    forall j | j in u
      ensures LinkOk(u, j)
    {
      assert j in t ==> LinkOk(t, j);
    }
  }

  lemma RevokeAllKeepsInv(t: Table, user: UserId, now: int)
    requires Inv(t)
    ensures Inv(RevokedAll(t, user, now)) && Evolves(t, RevokedAll(t, user, now))
    ensures forall j :: j in t && t[j].user == user ==> !Live(RevokedAll(t, user, now), j)
  {
    var u := RevokedAll(t, user, now);
    assert u.Keys == t.Keys;
    forall j | j in u
      ensures LinkOk(u, j)
    {
      assert LinkOk(t, j);
    }
  }

  lemma RevokeKeepsInv(t: Table, p: Presented, now: int)
    requires Inv(t)
    ensures Inv(Revoked(t, p, now).0) && Evolves(t, Revoked(t, p, now).0)
  {
    var u := Revoked(t, p, now).0;
    assert u.Keys == t.Keys;
    forall j | j in u
      ensures LinkOk(u, j)
    {
      assert LinkOk(t, j);
    }
  }

  lemma ReplaceKeepsInjective(t: Table, j: Jti, row: Token)
    requires LinksInjective(t) && j in t
    requires row.replacedBy.Some? ==> forall i {:trigger t[i].replacedBy} :: i in t ==>
      t[i].replacedBy != row.replacedBy
    ensures LinksInjective(t[j := row])
  {
  }

  lemma ReplaceKeepsInv(t: Table, j: Jti, next: Jti, row: Token)
    requires Inv(t) && j in t && next in t && t[next].user == t[j].user && t[j].serial < t[next].serial
    requires row.user == t[j].user && row.serial == t[j].serial && row.revokedAt.Some? && row.replacedBy == Some(next)
    requires forall i {:trigger t[i].replacedBy} :: i in t ==> t[i].replacedBy != Some(next)
    ensures Inv(t[j := row])
  {
    var u := t[j := row];
    assert u.Keys == t.Keys && |u| == |t|;
    forall i | i in u
      ensures LinkOk(u, i)
    {
      assert LinkOk(t, i) && LinkOk(t, j);
    }
    ReplaceKeepsInjective(t, j, row);
  }

  lemma RotateKeepsInv(t: Table, p: Presented, now: int, f: Fresh)
    requires Inv(t)
    ensures Inv(Rotated(t, p, now, f).0) && Evolves(t, Rotated(t, p, now, f).0)
  {
    if p.verifies && p.jti in t {
      var stored := t[p.jti];
      assert LinkOk(t, p.jti);
      if stored.revokedAt.Some? {
        RevokeAllKeepsInv(t, stored.user, now);
      } else if Rotated(t, p, now, f).1.Ok? {
        IssueKeepsInv(t, stored.user, f);
        var u := Issued(t, stored.user, f).0;
        forall i | i in u
          ensures u[i].replacedBy != Some(f.jti)
        {
          assert i in t ==> LinkOk(t, i);
        }
        ReplaceKeepsInv(u, p.jti, f.jti, stored.(revokedAt := Some(now), replacedBy := Some(f.jti)));
      }
    }
  }

  /** A rotation succeeds exactly for a genuine, known, live, unexpired, matching token; it revokes that token,
      links it to one new live token of the same user, and touches no other row. */
  lemma RotationMeaning(t: Table, p: Presented, now: int, f: Fresh)
    requires Inv(t) && f.jti !in t
    ensures var (u, r) := Rotated(t, p, now, f);
            && (r.Ok? <==> p.verifies && Live(t, p.jti) && now <= t[p.jti].expiresAt && p.hash == t[p.jti].hash)
            && (r.Ok? ==>
                  && !Live(u, p.jti) && u[p.jti].replacedBy == Some(f.jti) && Live(u, f.jti)
                  && u[p.jti] == t[p.jti].(revokedAt := Some(now), replacedBy := u[p.jti].replacedBy)
                  && u[f.jti].user == t[p.jti].user && u.Keys == t.Keys + {f.jti}
                  && forall j :: j in t && j != p.jti ==> u[j] == t[j])
            && (r.Err? ==> r.error == Unauthorized && (u == t || (p.verifies && p.jti in t && !Live(t, p.jti))))
  {
  }

  /** Logging out ends the token presented, if it is genuine, and no other; logging out everywhere ends the user's live
      tokens. What was revoked before keeps its time. */
  lemma LogoutEffect(t: Table, p: Presented, user: UserId, now: int)
    ensures var (u, r) := Revoked(t, p, now);
            && (r == Ok(()) <==> p.verifies) && (r.Err? ==> r.error == Unauthorized) && u.Keys == t.Keys
            && (p.verifies ==> !Live(u, p.jti))
            && (forall j :: j in t ==>
                  u[j] == if p.verifies && j == p.jti && Live(t, j) then t[j].(revokedAt := Some(now)) else t[j])
    ensures var u := RevokedAll(t, user, now);
            && u.Keys == t.Keys
            && (forall j :: j in t ==>
                  && (Live(u, j) <==> Live(t, j) && t[j].user != user)
                  && (u[j] == t[j] || u[j] == t[j].(revokedAt := Some(now))))
  {
  }

  /** Presenting a revoked token is refused and leaves its user with no live token at all. */
  lemma ReuseRevokesEverything(t: Table, p: Presented, now: int, f: Fresh, j: Jti)
    requires Inv(t) && p.verifies && p.jti in t && !Live(t, p.jti)
    ensures var (u, r) := Rotated(t, p, now, f);
            && r == Err(Unauthorized)
            && (j in u && u[j].user == t[p.jti].user ==> !Live(u, j))
            && (j in t && t[j].user != t[p.jti].user ==> u[j] == t[j])
  {
  }

  // ---------- Runs ----------

  datatype Command =
    | Login(user: UserId, next: Fresh)
    | Rotate(presented: Presented, now: int, next: Fresh)
    | Logout(presented: Presented, now: int)
    | LogoutAll(user: UserId, now: int)

  function Step(t: Table, c: Command): Table {
    match c
    case Login(user, f) => Issued(t, user, f).0
    case Rotate(p, now, f) => Rotated(t, p, now, f).0
    case Logout(p, now) => Revoked(t, p, now).0
    case LogoutAll(user, now) => RevokedAll(t, user, now)
  }

  function Run(cs: seq<Command>): Table {
    if cs == [] then map[] else Step(Run(cs[..|cs| - 1]), cs[|cs| - 1])
  }

  lemma StepKeepsInv(t: Table, c: Command)
    requires Inv(t)
    ensures Inv(Step(t, c)) && Evolves(t, Step(t, c))
  {
    match c
    case Login(user, f) => IssueKeepsInv(t, user, f);
    case Rotate(p, now, f) => RotateKeepsInv(t, p, now, f);
    case Logout(p, now) => RevokeKeepsInv(t, p, now);
    case LogoutAll(user, now) => RevokeAllKeepsInv(t, user, now);
  }

  lemma {:induction false} RunKeepsInv(cs: seq<Command>)
    ensures Inv(Run(cs))
  {
    if cs == [] {
    } else {
      RunKeepsInv(cs[..|cs| - 1]);
      StepKeepsInv(Run(cs[..|cs| - 1]), cs[|cs| - 1]);
    }
  }

  /** Once revoked, a token stays exactly as it is for the rest of the run. */
  lemma {:induction false} RevokedStaysRevoked(cs: seq<Command>, k: nat, j: Jti)
    requires k <= |cs| && j in Run(cs[..k]) && !Live(Run(cs[..k]), j)
    ensures j in Run(cs) && Run(cs)[j] == Run(cs[..k])[j]
    decreases |cs|
  {
    if k < |cs| {
      var init := cs[..|cs| - 1];
      assert init[..k] == cs[..k];
      RevokedStaysRevoked(init, k, j);
      RunKeepsInv(init);
      StepKeepsInv(Run(init), cs[|cs| - 1]);
    } else {
      assert cs[..k] == cs;
    }
  }

  ghost predicate Succeeds(t: Table, c: Command)
    requires c.Rotate?
  {
    Rotated(t, c.presented, c.now, c.next).1.Ok?
  }

  /** In any run, no token is rotated successfully twice. */
  lemma NoDoubleRotation(cs: seq<Command>, i: nat, k: nat)
    requires i < k < |cs| && cs[i].Rotate? && cs[k].Rotate? && cs[i].presented.jti == cs[k].presented.jti
    ensures !(Succeeds(Run(cs[..i]), cs[i]) && Succeeds(Run(cs[..k]), cs[k]))
  {
    if Succeeds(Run(cs[..i]), cs[i]) {
      assert cs[..i + 1][..i] == cs[..i] && cs[..k][..i + 1] == cs[..i + 1];
      RevokedStaysRevoked(cs[..k], i + 1, cs[i].presented.jti);
    }
  }

  // ---------- How long a token works ----------

  /** The call issues this token to the user. */
  predicate Issues(t: Table, c: Command, f: Fresh, user: UserId) {
    match c
    case Login(u, g) => g == f && u == user && f.jti !in t
    case Rotate(p, now, g) =>
      && g == f && f.jti !in t
      && p.verifies && Live(t, p.jti) && now <= t[p.jti].expiresAt && p.hash == t[p.jti].hash && t[p.jti].user == user
    case _ => false
  }

  /** The call ends this token: it is exchanged or logged out, its user is logged out everywhere, or one of the user's
      revoked tokens is presented. */
  predicate Ends(t: Table, c: Command, f: Fresh, user: UserId) {
    match c
    case Login(_, _) => false
    case Rotate(p, now, g) =>
      && p.verifies
      && if p.jti == f.jti then p.hash == f.hash && now <= f.expiresAt && g.jti !in t
         else p.jti in t && t[p.jti].user == user && !Live(t, p.jti)
    case Logout(p, _) => p.verifies && p.jti == f.jti
    case LogoutAll(u, _) => u == user
  }

  /** The token's row as it has to be for the token to work: live, with its own hash and expiry. */
  predicate Works(t: Table, f: Fresh, user: UserId) {
    && Live(t, f.jti) && t[f.jti].user == user && t[f.jti].hash == f.hash && t[f.jti].expiresAt == f.expiresAt
  }

  lemma IssuedWorks(t: Table, c: Command, f: Fresh, user: UserId)
    ensures Issues(t, c, f, user) <==> f.jti !in t && Works(Step(t, c), f, user)
  {
  }

  lemma WorksUnlessEnded(t: Table, c: Command, f: Fresh, user: UserId)
    requires Works(t, f, user)
    ensures if Ends(t, c, f, user) then f.jti in Step(t, c) && !Live(Step(t, c), f.jti) else Works(Step(t, c), f, user)
  {
  }

  ghost predicate Spared(cs: seq<Command>, k: nat, f: Fresh, user: UserId) {
    forall i {:trigger cs[i]} :: k < i < |cs| ==> !Ends(Run(cs[..i]), cs[i], f, user)
  }

  lemma SparedUnfolds(cs: seq<Command>, k: nat, f: Fresh, user: UserId)
    requires k < |cs| - 1
    ensures var init := cs[..|cs| - 1];
            Spared(cs, k, f, user) <==> Spared(init, k, f, user) && !Ends(Run(init), cs[|cs| - 1], f, user)
  {
    var init := cs[..|cs| - 1];
    assert forall i {:trigger cs[i]} {:trigger init[i]} :: 0 <= i < |init| ==> init[i] == cs[i] && init[..i] == cs[..i];
    if Spared(cs, k, f, user) {
      assert !Ends(Run(init), cs[|cs| - 1], f, user);
      forall i | k < i < |init|
        ensures !Ends(Run(init[..i]), init[i], f, user)
      {
        assert !Ends(Run(cs[..i]), cs[i], f, user);
      }
    }
    if Spared(init, k, f, user) && !Ends(Run(init), cs[|cs| - 1], f, user) {
      forall i | k < i < |cs|
        ensures !Ends(Run(cs[..i]), cs[i], f, user)
      {
        assert i < |init| ==> !Ends(Run(init[..i]), init[i], f, user);
      }
    }
  }

  lemma {:induction false} WorksWhileSpared(cs: seq<Command>, k: nat, f: Fresh, user: UserId)
    requires k < |cs| && Issues(Run(cs[..k]), cs[k], f, user)
    ensures f.jti in Run(cs)
    ensures if Spared(cs, k, f, user) then Works(Run(cs), f, user) else !Live(Run(cs), f.jti)
    decreases |cs|
  {
    var (init, last) := (cs[..|cs| - 1], cs[|cs| - 1]);
    if k == |cs| - 1 {
      IssuedWorks(Run(init), last, f, user);
    } else {
      assert init[..k] == cs[..k];
      WorksWhileSpared(init, k, f, user);
      SparedUnfolds(cs, k, f, user);
      if Spared(init, k, f, user) {
        WorksUnlessEnded(Run(init), last, f, user);
      } else {
        RunKeepsInv(init);
        StepKeepsInv(Run(init), last);
      }
    }
  }

  /** A token issued by a login or an exchange can be exchanged, after any further calls, exactly when none of them has
      ended it, it is presented with its own hash, and its expiry has not passed. */
  lemma {:induction false} IssuedTokenRotates(cs: seq<Command>, k: nat, f: Fresh, user: UserId, p: Presented, now: int,
                                              next: Fresh)
    requires k < |cs| && Issues(Run(cs[..k]), cs[k], f, user)
    requires p.jti == f.jti && next.jti !in Run(cs)
    ensures Rotated(Run(cs), p, now, next).1.Ok? <==>
            p.verifies && p.hash == f.hash && now <= f.expiresAt && Spared(cs, k, f, user)
    ensures Rotated(Run(cs), p, now, next).1.Err? ==> Rotated(Run(cs), p, now, next).1 == Err(Unauthorized)
  {
    WorksWhileSpared(cs, k, f, user);
    RunKeepsInv(cs);
    RotationMeaning(Run(cs), p, now, next);
  }

  /** In every reachable table two tokens never share a replacement, every chain is acyclic and ends in its only
      possibly live token, and all its tokens belong to one user. */
  lemma ReachableChains(cs: seq<Command>, first: Jti, n: nat, m: nat, other: Jti)
    requires first in Run(cs) && Follow(Run(cs), first, n).Some? && Follow(Run(cs), first, m).Some? && n < m
    ensures var t := Run(cs);
            var (a, b) := (Follow(t, first, n).value, Follow(t, first, m).value);
            && a != b && a in t && b in t && t[a].user == t[b].user == t[first].user
            && t[a].revokedAt.Some? && t[a].replacedBy.Some?
            && (other in t && t[other].replacedBy == t[a].replacedBy ==> other == a)
  {
    var t := Run(cs);
    RunKeepsInv(cs);
    ChainsAreSound(t, first, n, m);
    ChainsGrowYounger(t, first, n);
    ChainsGrowYounger(t, first, m);
    FollowSplits(t, first, n, m - n);
  }
}
