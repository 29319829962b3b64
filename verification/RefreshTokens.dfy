/** services/iam/internal/application/auth_service.go with the token table of
    services/iam/internal/infrastructure/postgres/token_repo.go: refresh-token rotation.
    A token is known by its hash; hashes of new tokens and new families are fresh, as new UUIDs are. */
module RefreshTokens {
  import opened Prelude

  datatype Token = Token(user: string, family: nat, revoked: bool, expiresAt: int)

  const REFRESH_TOKEN_TTL: int := 7 * 24 * 3600 * 1_000_000_000

  function NewToken(user: string, family: nat, now: int): Token {
    Token(user, family, false, now + REFRESH_TOKEN_TTL)
  }

  type Table = map<string, Token>

  predicate Redeemable(t: Table, hash: string, now: int) {
    hash in t && !t[hash].revoked && t[hash].expiresAt > now
  }

  function Revoke(t: Table, hash: string): Table {
    if hash in t then t[hash := t[hash].(revoked := true)] else t
  }

  function RevokeUser(t: Table, user: string): Table {
    map h | h in t :: if t[h].user == user then t[h].(revoked := true) else t[h]
  }

  function Sweep(t: Table, now: int): Table {
    map h | h in t && t[h].expiresAt >= now :: t[h]
  }

  datatype AuthError = InvalidToken | UserLookup | NotActive | RolesLookup | IssueFailed

  /** How the calls a `Refresh` makes after redeeming its token come out. */
  datatype Rest = Rest(userFound: bool, active: bool, rolesFound: bool, signed: bool, saved: bool)

  class AuthService {
    var tokens: Table

    constructor ()
      ensures tokens == map[]
    {
      tokens := map[];
    }

    /** One `UPDATE ... RETURNING`: redeems a token that is live, once. */
    method GetAndRevoke(hash: string, now: int) returns (r: Option<Token>)
      modifies this`tokens
      ensures r == if Redeemable(old(tokens), hash, now) then Some(old(tokens)[hash]) else None
      ensures r.Some? <==> hash in old(tokens) && !old(tokens)[hash].revoked && now < old(tokens)[hash].expiresAt
      ensures tokens == if r.Some? then Revoke(old(tokens), hash) else old(tokens)
    {
      if hash !in tokens || tokens[hash].revoked || tokens[hash].expiresAt <= now { return None; }
      r := Some(tokens[hash]);
      tokens := tokens[hash := tokens[hash].(revoked := true)];
    }

    method IssueTokenPair(user: string, family: nat, hash: string, now: int, signed: bool, saved: bool)
      returns (ok: bool)
      requires hash !in tokens
      modifies this`tokens
      ensures ok == (signed && saved)
      ensures tokens == if ok then old(tokens)[hash := NewToken(user, family, now)] else old(tokens)
    {
      if !signed || !saved { return false; }
      tokens := tokens[hash := NewToken(user, family, now)];
      return true;
    }

    /** Exchanges a live token for a new one of its family; the old one stays redeemed, whatever fails next. */
    method Refresh(hash: string, freshHash: string, now: int, rest: Rest) returns (err: Option<AuthError>)
      requires freshHash !in tokens
      modifies this`tokens
      ensures !Redeemable(old(tokens), hash, now) ==> err == Some(InvalidToken) && tokens == old(tokens)
      ensures Redeemable(old(tokens), hash, now) ==>
        && err == (if !rest.userFound then Some(UserLookup)
                   else if !rest.active then Some(NotActive)
                   else if !rest.rolesFound then Some(RolesLookup)
                   else if !rest.signed || !rest.saved then Some(IssueFailed)
                   else None)
        && tokens == var t := Revoke(old(tokens), hash);
             if err == None then t[freshHash := NewToken(t[hash].user, t[hash].family, now)] else t
      ensures err != Some(InvalidToken)
         <==> hash in old(tokens) && !old(tokens)[hash].revoked && now < old(tokens)[hash].expiresAt
      ensures err == None ==>
        && hash in tokens && tokens[hash].revoked
        && freshHash in tokens && tokens[freshHash].user == old(tokens)[hash].user
        && tokens[freshHash].family == old(tokens)[hash].family && !tokens[freshHash].revoked
        && tokens[freshHash].expiresAt == now + 7 * 24 * 3600 * 1_000_000_000
    {
      var stored := GetAndRevoke(hash, now);
      if stored.None? { return Some(InvalidToken); }
      if !rest.userFound { return Some(UserLookup); }
      if !rest.active { return Some(NotActive); }
      if !rest.rolesFound { return Some(RolesLookup); }
      var ok := IssueTokenPair(stored.value.user, stored.value.family, freshHash, now, rest.signed, rest.saved);
      return if ok then None else Some(IssueFailed);
    }

    method Logout(hash: string)
      modifies this`tokens
      ensures tokens == Revoke(old(tokens), hash)
      ensures forall h, now :: Redeemable(tokens, h, now) <==> h != hash && Redeemable(old(tokens), h, now)
    {
      if hash in tokens { tokens := tokens[hash := tokens[hash].(revoked := true)]; }
    }

    /** The last part of `ResetPassword` and `ChangePassword`, assumed not to fail. */
    method RevokeAllForUser(user: string)
      modifies this`tokens
      ensures tokens == RevokeUser(old(tokens), user)
      ensures forall h, now :: Redeemable(tokens, h, now) <==>
        Redeemable(old(tokens), h, now) && old(tokens)[h].user != user
    {
      tokens := map h | h in tokens :: if tokens[h].user == user then tokens[h].(revoked := true) else tokens[h];
    }
  }

  // ---- interleaved calls ----

  /** A `Login`, `SelfSignup` or `Refresh` call that is to save a token of a family. */
  datatype Flight = Flight(user: string, family: nat)

  /** `seen` holds every hash ever saved, `owner` the user of every family ever begun, `redeemed` the hashes in the
      order of their redemption. */
  datatype State = State(tokens: Table, flights: map<nat, Flight>, seen: set<string>, owner: map<nat, string>,
                         redeemed: seq<string>)

  datatype Action =
    | Login(call: nat, user: string, family: nat)
    | Redeem(call: nat, hash: string, now: int)
    | Save(call: nat, hash: string, now: int)
    | Abort(call: nat)
    | Logout(hash: string)
    | RevokeAll(user: string)
    | DeleteExpired(now: int)

  const INITIAL := State(map[], map[], {}, map[], [])

  predicate Enabled(s: State, a: Action) {
    match a
    case Login(call, _, family) => call !in s.flights && family !in s.owner
    case Redeem(call, hash, now) => call !in s.flights && Redeemable(s.tokens, hash, now)
    case Save(call, hash, _) => call in s.flights && hash !in s.seen
    case Abort(call) => call in s.flights
    case Logout(_) => true
    case RevokeAll(_) => true
    case DeleteExpired(_) => true
  }

  function Next(s: State, a: Action): State
    requires Enabled(s, a)
  {
    match a
    case Login(call, user, family) =>
      s.(flights := s.flights[call := Flight(user, family)], owner := s.owner[family := user])
    case Redeem(call, hash, _) =>
      s.(tokens := Revoke(s.tokens, hash), redeemed := s.redeemed + [hash],
         flights := s.flights[call := Flight(s.tokens[hash].user, s.tokens[hash].family)])
    case Save(call, hash, now) =>
      var f := s.flights[call];
      s.(tokens := s.tokens[hash := NewToken(f.user, f.family, now)], flights := s.flights - {call},
         seen := s.seen + {hash})
    case Abort(call) => s.(flights := s.flights - {call})
    case Logout(hash) => s.(tokens := Revoke(s.tokens, hash))
    case RevokeAll(user) => s.(tokens := RevokeUser(s.tokens, user))
    case DeleteExpired(now) => s.(tokens := Sweep(s.tokens, now))
  }

  function Step(s: State, a: Action): State { if Enabled(s, a) then Next(s, a) else s }

  function RunFrom(s: State, actions: seq<Action>): State {
    if actions == [] then s else Step(RunFrom(s, actions[..|actions| - 1]), actions[|actions| - 1])
  }

  // ---- what can be redeemed ----

  /** A saving of a token: for whom, and when. */
  datatype Saving = Saving(user: string, at: int)

  function UnusedAfter(s: State, a: Action, before: Option<Saving>, hash: string): Option<Saving>
    requires Enabled(s, a)
  {
    match a
    case Save(call, h, at) => if h == hash then Some(Saving(s.flights[call].user, at)) else before
    case Redeem(_, h, _) => if h == hash then None else before
    case Logout(h) => if h == hash then None else before
    case RevokeAll(user) => if before.Some? && before.value.user == user then None else before
    case _ => before
  }

  /** The saving of the hash, if neither a redemption nor a logout of the hash nor a revocation of its user's tokens has
      taken effect since. */
  function Unused(actions: seq<Action>, hash: string): Option<Saving> {
    if actions == [] then None
    else
      var front, a := actions[..|actions| - 1], actions[|actions| - 1];
      var s, before := RunFrom(INITIAL, front), Unused(front, hash);
      if Enabled(s, a) then UnusedAfter(s, a, before, hash) else before
  }

  /** At `now` the table lets the hash be redeemed as that saving does. */
  predicate Agrees(t: Table, saved: Option<Saving>, hash: string, now: int) {
    && (saved.Some? && hash in t ==> t[hash].user == saved.value.user)
    && (Redeemable(t, hash, now) <==> saved.Some? && now < saved.value.at + 7 * 24 * 3600 * 1_000_000_000)
  }

  lemma AgreesStep(s: State, a: Action, before: Option<Saving>, hash: string, now: int)
    requires Enabled(s, a) && Agrees(s.tokens, before, hash, now) && (a.DeleteExpired? ==> a.now <= now)
    ensures Agrees(Next(s, a).tokens, UnusedAfter(s, a, before, hash), hash, now)
  {
  }

  lemma {:induction false} UnusedIsRedeemable(actions: seq<Action>, hash: string, now: int)
    requires forall i :: 0 <= i < |actions| && actions[i].DeleteExpired? ==> actions[i].now <= now
    ensures Agrees(RunFrom(INITIAL, actions).tokens, Unused(actions, hash), hash, now)
  {
    if actions != [] {
      var front, a := actions[..|actions| - 1], actions[|actions| - 1];
      UnusedIsRedeemable(front, hash, now);
      var s := RunFrom(INITIAL, front);
      if Enabled(s, a) { AgreesStep(s, a, Unused(front, hash), hash, now); }
    }
  }

  /** In every interleaving a token can be redeemed exactly in the seven days after it was saved, and if it has not been
      used, logged out or revoked, whatever expired rows have been deleted by then. */
  lemma RedeemedWhenDue(actions: seq<Action>, call: nat, hash: string, now: int)
    requires call !in RunFrom(INITIAL, actions).flights
    requires forall i :: 0 <= i < |actions| && actions[i].DeleteExpired? ==> actions[i].now <= now
    ensures Enabled(RunFrom(INITIAL, actions), Redeem(call, hash, now))
       <==> && Unused(actions, hash).Some?
            && now < Unused(actions, hash).value.at + 7 * 24 * 3600 * 1_000_000_000
  {
    UnusedIsRedeemable(actions, hash, now);
  }

  /** What keeps a family alive: an unrevoked token or a call about to save one. */
  datatype Holder = ByToken(hash: string) | ByCall(call: nat)

  predicate Holds(s: State, family: nat, h: Holder) {
    match h
    case ByToken(hash) => hash in s.tokens && !s.tokens[hash].revoked && s.tokens[hash].family == family
    case ByCall(call) => call in s.flights && s.flights[call].family == family
  }

  ghost predicate OneHolder(s: State) {
    forall family, h, h' :: Holds(s, family, h) && Holds(s, family, h') ==> h == h'
  }

  predicate OwnedBy(s: State, family: nat, user: string) {
    family in s.owner && s.owner[family] == user
  }

  ghost predicate Recorded(s: State) {
    && (forall hash :: hash in s.tokens ==> hash in s.seen && OwnedBy(s, s.tokens[hash].family, s.tokens[hash].user))
    && (forall call :: call in s.flights ==> OwnedBy(s, s.flights[call].family, s.flights[call].user))
    && forall i :: 0 <= i < |s.redeemed| ==>
         s.redeemed[i] in s.seen && (s.redeemed[i] in s.tokens ==> s.tokens[s.redeemed[i]].revoked)
  }

  ghost predicate Kept(s: State) {
    Recorded(s) && OneHolder(s) && Distinct(s.redeemed)
  }

  /** Where a holder after a step comes from: it held the family before, or the step handed the family on to it, or
      the family is new. */
  lemma HolderFrom(s: State, a: Action, family: nat, h: Holder)
    requires Enabled(s, a) && Recorded(s) && Holds(Next(s, a), family, h)
    ensures || (Holds(s, family, h) && !(a.Redeem? && h == ByToken(a.hash)) && !(a.Save? && h == ByCall(a.call)))
            || (a.Redeem? && h == ByCall(a.call) && Holds(s, family, ByToken(a.hash)))
            || (a.Save? && h == ByToken(a.hash) && Holds(s, family, ByCall(a.call)))
            || (a.Login? && h == ByCall(a.call) && family == a.family && family !in s.owner)
  {
  }

  lemma OneHolderStep(s: State, a: Action)
    requires Kept(s) && Enabled(s, a)
    ensures OneHolder(Next(s, a))
  {
    var t := Next(s, a);
    forall family, h, h' | Holds(t, family, h) && Holds(t, family, h') ensures h == h' {
      HolderFrom(s, a, family, h);
      HolderFrom(s, a, family, h');
    }
  }

  lemma KeptStep(s: State, a: Action)
    requires Kept(s)
    ensures Kept(Step(s, a))
  {
    if Enabled(s, a) { OneHolderStep(s, a); }
  }

  lemma {:induction false} AlwaysKept(actions: seq<Action>)
    ensures Kept(RunFrom(INITIAL, actions))
  {
    if actions != [] {
      AlwaysKept(actions[..|actions| - 1]);
      KeptStep(RunFrom(INITIAL, actions[..|actions| - 1]), actions[|actions| - 1]);
    }
  }

  /** In every interleaving a family has at most one of: an unrevoked token, a call between redemption and save. */
  lemma AtMostOneHolder(actions: seq<Action>, family: nat, h: Holder, h': Holder)
    requires Holds(RunFrom(INITIAL, actions), family, h) && Holds(RunFrom(INITIAL, actions), family, h')
    ensures h == h'
  {
    AlwaysKept(actions);
  }

  /** A token is redeemed at most once over the whole run, even if its row is later deleted. */
  lemma RedeemedOnce(actions: seq<Action>)
    ensures Distinct(RunFrom(INITIAL, actions).redeemed)
  {
    AlwaysKept(actions);
  }

  ghost predicate Dead(s: State, family: nat) {
    family in s.owner && forall h :: !Holds(s, family, h)
  }

  /** A family without a holder never gets one again: the chain of its tokens is over for good. */
  lemma {:induction false} DeadFamiliesStayDead(actions: seq<Action>, more: seq<Action>, family: nat)
    requires Dead(RunFrom(INITIAL, actions), family)
    ensures Dead(RunFrom(INITIAL, actions + more), family)
    decreases |more|
  {
    if more == [] {
      assert actions + more == actions;
    } else {
      var n := |more| - 1;
      DeadFamiliesStayDead(actions, more[..n], family);
      AlwaysKept(actions + more[..n]);
      var s, a := RunFrom(INITIAL, actions + more[..n]), more[n];
      assert (actions + more)[..|actions| + n] == actions + more[..n];
      assert RunFrom(INITIAL, actions + more) == Step(s, a);
      forall h ensures !Holds(Step(s, a), family, h) {
        if Enabled(s, a) && Holds(Next(s, a), family, h) { HolderFrom(s, a, family, h); }
      }
    }
  }

  /** Revoking all of a user's tokens ends each of their families exactly if no call is about to save into it. */
  lemma RevokedFamily(actions: seq<Action>, user: string, family: nat)
    requires OwnedBy(RunFrom(INITIAL, actions), family, user)
    ensures var s := RunFrom(INITIAL, actions);
      Dead(Next(s, RevokeAll(user)), family) <==> forall call :: !Holds(s, family, ByCall(call))
  {
    AlwaysKept(actions);
    var s := RunFrom(INITIAL, actions);
    var t := Next(s, RevokeAll(user));
    forall h ensures Holds(t, family, h) <==> h.ByCall? && Holds(s, family, h) {
    }
  }

  /** A logout ends the family of its token exactly if nothing else holds it: no later token, no call about to save. */
  lemma LogoutEndsFamily(actions: seq<Action>, hash: string)
    requires hash in RunFrom(INITIAL, actions).tokens
    ensures var s := RunFrom(INITIAL, actions); var family := s.tokens[hash].family;
      Dead(Next(s, Logout(hash)), family) <==> forall h :: Holds(s, family, h) ==> h == ByToken(hash)
  {
    AlwaysKept(actions);
    var s := RunFrom(INITIAL, actions);
    var t, family := Next(s, Logout(hash)), s.tokens[hash].family;
    forall h ensures Holds(t, family, h) <==> h != ByToken(hash) && Holds(s, family, h) {
    }
  }

  /** Logging out with a token that a refresh has already redeemed leaves the session alive once that refresh saves. */
  lemma FamilyOutlivesLogout(user: string)
    ensures var t := RunFrom(INITIAL,
        [Login(0, user, 0), Save(0, "a", 0), Redeem(1, "a", 1), Logout("a"), Save(1, "b", 2)]).tokens;
      "b" in t && t["b"].family == 0 && t["b"].user == user && Redeemable(t, "b", 3)
  {
    FiveSteps(Login(0, user, 0), Save(0, "a", 0), Redeem(1, "a", 1), Logout("a"), Save(1, "b", 2));
    var s := Step(Step(INITIAL, Login(0, user, 0)), Save(0, "a", 0));
    assert s.tokens == map["a" := Token(user, 0, false, REFRESH_TOKEN_TTL)] && s.flights == map[] && s.seen == {"a"};
    var t := Step(Step(s, Redeem(1, "a", 1)), Logout("a"));
    assert t.flights == map[1 := Flight(user, 0)] && t.seen == {"a"};
    assert "b" != "a";
  }

  // ---- revocation is for good ----

  /** A token that has been saved and cannot be redeemed now or later: it is revoked, or its row is gone. */
  predicate Spent(s: State, hash: string) {
    hash in s.seen && (hash in s.tokens ==> s.tokens[hash].revoked)
  }

  lemma RunOneMore(actions: seq<Action>, more: seq<Action>, a: Action)
    ensures RunFrom(INITIAL, actions + (more + [a])) == Step(RunFrom(INITIAL, actions + more), a)
  {
    assert (actions + (more + [a]))[..|actions| + |more|] == actions + more;
  }

  lemma SpentStep(s: State, a: Action, hash: string)
    requires Spent(s, hash)
    ensures Spent(Step(s, a), hash)
  {
  }

  lemma {:induction false} SpentForGood(actions: seq<Action>, more: seq<Action>, hash: string)
    requires Spent(RunFrom(INITIAL, actions), hash)
    ensures Spent(RunFrom(INITIAL, actions + more), hash)
    decreases |more|
  {
    if more == [] {
      assert actions + more == actions;
    } else {
      var front, a := more[..|more| - 1], more[|more| - 1];
      assert more == front + [a];
      SpentForGood(actions, front, hash);
      RunOneMore(actions, front, a);
      SpentStep(RunFrom(INITIAL, actions + front), a, hash);
    }
  }

  /** After a logout, whatever else happens, the token is never redeemed. */
  lemma LogoutIsFinal(actions: seq<Action>, hash: string, more: seq<Action>, now: int)
    requires hash in RunFrom(INITIAL, actions).seen
    ensures !Redeemable(RunFrom(INITIAL, (actions + [Logout(hash)]) + more).tokens, hash, now)
  {
    RunOneMore(actions, [], Logout(hash));
    assert actions + [] == actions && [] + [Logout(hash)] == [Logout(hash)];
    AlwaysKept(actions);
    SpentForGood(actions + [Logout(hash)], more, hash);
  }

  /** Nor, after a password change, any token its user had at that moment. */
  lemma PasswordChangeIsFinal(actions: seq<Action>, user: string, hash: string, more: seq<Action>, now: int)
    requires var t := RunFrom(INITIAL, actions).tokens; hash in t && t[hash].user == user
    ensures !Redeemable(RunFrom(INITIAL, (actions + [RevokeAll(user)]) + more).tokens, hash, now)
  {
    RunOneMore(actions, [], RevokeAll(user));
    assert actions + [] == actions && [] + [RevokeAll(user)] == [RevokeAll(user)];
    AlwaysKept(actions);
    SpentForGood(actions + [RevokeAll(user)], more, hash);
  }

  lemma FiveSteps(a: Action, b: Action, c: Action, d: Action, e: Action)
    ensures RunFrom(INITIAL, [a, b, c, d, e]) == Step(Step(Step(Step(Step(INITIAL, a), b), c), d), e)
  {
    assert [a, b, c, d, e][..4] == [a, b, c, d] && [a, b, c, d][..3] == [a, b, c];
    assert [a, b, c][..2] == [a, b] && [a, b][..1] == [a] && [a][..0] == [];
    assert RunFrom(INITIAL, []) == INITIAL && RunFrom(INITIAL, [a]) == Step(INITIAL, a);
    assert RunFrom(INITIAL, [a, b, c]) == Step(Step(Step(INITIAL, a), b), c);
    assert RunFrom(INITIAL, [a, b, c, d]) == Step(Step(Step(Step(INITIAL, a), b), c), d);
  }

  /** A refresh that has redeemed its token when its user's tokens are revoked, and saves afterwards, leaves that user
      a token that can be redeemed. */
  lemma FamilyOutlivesRevocation(user: string)
    ensures var t := RunFrom(INITIAL,
        [Login(0, user, 0), Save(0, "a", 0), Redeem(1, "a", 1), RevokeAll(user), Save(1, "b", 2)]).tokens;
      "b" in t && t["b"].user == user && Redeemable(t, "b", 3)
  {
    FiveSteps(Login(0, user, 0), Save(0, "a", 0), Redeem(1, "a", 1), RevokeAll(user), Save(1, "b", 2));
    var s := Step(Step(INITIAL, Login(0, user, 0)), Save(0, "a", 0));
    assert s.tokens == map["a" := Token(user, 0, false, REFRESH_TOKEN_TTL)] && s.flights == map[] && s.seen == {"a"};
    var t := Step(Step(s, Redeem(1, "a", 1)), RevokeAll(user));
    assert t.flights == map[1 := Flight(user, 0)] && t.seen == {"a"};
    assert "b" != "a";
  }
}
