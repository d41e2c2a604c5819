/** Refresh-token rotation: `crates/auth/src/refresh.rs` and `crates/auth/src/token_store.rs`.

    Handlers run one at a time; any step of a handler may fail, a write also after it took
    effect.  A token is named by its `jti`, which is its place among the tokens signed so far:
    every signed token gets an unused id.  The signature cannot be made by anyone else, so a
    client presents a token that was signed or one that does not decode. */
module RefreshTokens {
  import opened Terms

  const ACCESS_TOKEN_LIFETIME_SECS: int := 3600
  const REFRESH_TOKEN_LIFETIME_SECS: int := 2_592_000

  datatype Claims = Claims(tenant: nat, user: nat, device: Option<nat>, exp: int)

  /** `family` is the token the chain began with; `parent` the token this one replaced. */
  datatype Signed = Signed(claims: Claims, family: nat, parent: Option<nat>)

  /** A row of `refresh_tokens`. */
  datatype Row = Row(tenant: nat, user: nat, device: nat, expiresAt: int, revoked: bool)

  datatype State = State(rows: map<nat, Row>, signed: seq<Signed>, redeemed: seq<nat>)

  datatype Fault = NoFault | AtDecode | AtCheck | AtRevoke | AfterRevoke | AtEncode | AtStore | AfterStore

  /** A pair is the refresh token `jti` and an access token with the claims `access`. */
  datatype Outcome = Pair(jti: nat, access: Claims) | Unauthorized | Internal

  datatype Step =
    | Issue(tenant: nat, user: nat, device: Option<nat>, now: int, spare: nat, fault: Fault)
    | Refresh(jti: nat, now: int, spare: nat, fault: Fault)
    | Revoke(tenant: nat, jti: nat)

  const EMPTY := State(map[], [], [])

  // ---- The token store ----

  function Stored(rows: map<nat, Row>, jti: nat, row: Row): Option<map<nat, Row>> {
    if jti in rows then None else Some(rows[jti := row])
  }

  function Revoked(rows: map<nat, Row>, tenant: nat, jti: nat): Option<map<nat, Row>> {
    if jti in rows && rows[jti].tenant == tenant then Some(rows[jti := rows[jti].(revoked := true)]) else None
  }

  predicate IsRevoked(rows: map<nat, Row>, tenant: nat, jti: nat, now: int) {
    jti in rows && rows[jti].tenant == tenant ==> rows[jti].revoked || rows[jti].expiresAt < now
  }

  // ---- The handlers ----

  /** Sign a token and store its row: steps 5 to 7 of a refresh, and all of an issue.  A token
      without a device id gets a spare one in its row only. */
  function Mint(s: State, token: Signed, spare: nat, fault: Fault): (State, bool) {
    var jti := |s.signed|;
    if fault == AtEncode then (s, false)
    else
      var s' := s.(signed := s.signed + [token]);
      var device := if token.claims.device.Some? then token.claims.device.value else spare;
      var rows := Stored(s.rows, jti, Row(token.claims.tenant, token.claims.user, device, token.claims.exp, false));
      if fault == AtStore || rows.None? then (s', false)
      else (s'.(rows := rows.value), fault != AfterStore)
  }

  function IssueTokenPair(s: State, tenant: nat, user: nat, device: Option<nat>, now: int, spare: nat,
                          fault: Fault): (State, Outcome) {
    var jti := |s.signed|;
    var (s', ok) := Mint(s, Signed(Claims(tenant, user, device, now + REFRESH_TOKEN_LIFETIME_SECS), jti, None), spare,
                         fault);
    (s', if ok then Pair(jti, Claims(tenant, user, device, now + ACCESS_TOKEN_LIFETIME_SECS)) else Internal)
  }

  function HandleRefresh(s: State, jti: nat, now: int, spare: nat, fault: Fault): (State, Outcome) {
    if jti >= |s.signed| || fault == AtDecode then (s, Unauthorized)
    else
      var claims := s.signed[jti].claims;
      if fault == AtCheck then (s, Internal)
      else if IsRevoked(s.rows, claims.tenant, jti, now) then (s, Unauthorized)
      else if fault == AtRevoke then (s, Internal)
      else
        var rows := Revoked(s.rows, claims.tenant, jti);
        if rows.None? then (s, Unauthorized)
        else if fault == AfterRevoke then (s.(rows := rows.value), Internal)
        else Rotated(s.(rows := rows.value), jti, now, spare, fault)
  }

  /** Steps 5 to 7: the claims are carried over, the lifetime starts again. */
  function Rotated(s: State, jti: nat, now: int, spare: nat, fault: Fault): (State, Outcome)
    requires jti < |s.signed|
  {
    var replaced := s.signed[jti];
    var token := Signed(replaced.claims.(exp := now + REFRESH_TOKEN_LIFETIME_SECS), replaced.family, Some(jti));
    var (s', ok) := Mint(s, token, spare, fault);
    var access := replaced.claims.(exp := now + ACCESS_TOKEN_LIFETIME_SECS);
    if ok then (s'.(redeemed := s'.redeemed + [jti]), Pair(|s.signed|, access)) else (s', Internal)
  }

  function Act(s: State, step: Step): State {
    match step
    case Issue(tenant, user, device, now, spare, fault) => IssueTokenPair(s, tenant, user, device, now, spare, fault).0
    case Refresh(jti, now, spare, fault) => HandleRefresh(s, jti, now, spare, fault).0
    case Revoke(tenant, jti) =>
      var rows := Revoked(s.rows, tenant, jti);
      if rows.None? then s else s.(rows := rows.value)
  }

  function Run(s: State, steps: seq<Step>): State {
    if steps == [] then s else Act(Run(s, steps[..|steps| - 1]), steps[|steps| - 1])
  }

  // ---- What every run keeps ----

  predicate SameHolder(a: Claims, b: Claims) {
    a.tenant == b.tenant && a.user == b.user && a.device == b.device
  }

  ghost predicate RowOk(s: State, jti: nat)
    requires jti in s.rows
  {
    && jti < |s.signed|
    && var claims, row := s.signed[jti].claims, s.rows[jti];
       row.tenant == claims.tenant && row.user == claims.user && row.expiresAt == claims.exp
       && (claims.device.Some? ==> row.device == claims.device.value)
  }

  predicate Spent(s: State, jti: nat) {
    jti in s.rows && s.rows[jti].revoked
  }

  predicate Unspent(s: State, jti: nat) {
    jti in s.rows && !s.rows[jti].revoked
  }

  /** The chain of a token: same holder throughout, each link replacing a spent token. */
  ghost predicate ChainOk(s: State, jti: nat)
    requires jti < |s.signed|
  {
    var token := s.signed[jti];
    && token.family <= jti
    && SameHolder(token.claims, s.signed[token.family].claims)
    && s.signed[token.family].family == token.family
    && (token.parent.None? <==> token.family == jti)
    && (token.parent.Some? ==>
          token.parent.value < jti && s.signed[token.parent.value].family == token.family
            && Spent(s, token.parent.value))
  }

  ghost predicate LinksDiffer(s: State, i: nat, j: nat)
    requires i < j < |s.signed|
  {
    s.signed[j].parent.Some? ==> s.signed[i].parent != s.signed[j].parent
  }

  ghost predicate AliveDiffer(s: State, i: nat, j: nat)
    requires i in s.rows && j in s.rows && i < |s.signed| && j < |s.signed|
  {
    Unspent(s, i) && Unspent(s, j) ==> s.signed[i].family != s.signed[j].family
  }

  /** One of the first `n` tokens signed replaces `jti`. */
  ghost predicate HasSuccessor(s: State, jti: nat, n: nat)
    requires n <= |s.signed|
  {
    exists j: nat :: j < n && s.signed[j].parent == Some(jti)
  }

  /** Every redeemed token was replaced by a token that is in the store. */
  ghost predicate RedeemedOk(s: State, k: nat)
    requires k < |s.redeemed|
  {
    Spent(s, s.redeemed[k]) && HasSuccessor(s, s.redeemed[k], |s.signed|)
  }

  ghost predicate Inv(s: State) {
    && (forall jti | jti in s.rows :: RowOk(s, jti))
    && (forall jti: nat | jti < |s.signed| :: ChainOk(s, jti))
    && (forall i: nat, j: nat | i < j < |s.signed| :: LinksDiffer(s, i, j))
    && (forall i, j | i in s.rows && j in s.rows && i != j :: AliveDiffer(s, i, j))
    && (forall k: nat | k < |s.redeemed| :: RedeemedOk(s, k))
    && (forall k: nat, l: nat | k < l < |s.redeemed| :: s.redeemed[k] != s.redeemed[l])
  }

  lemma {:induction false} RevokeKeeps(s: State, tenant: nat, jti: nat)
    requires Inv(s) && Revoked(s.rows, tenant, jti).Some?
    ensures Inv(s.(rows := Revoked(s.rows, tenant, jti).value))
  {
    var s' := s.(rows := Revoked(s.rows, tenant, jti).value);
    forall j | j in s'.rows
      ensures RowOk(s', j)
    {
      assert RowOk(s, j);
    }
    forall j: nat | j < |s'.signed|
      ensures ChainOk(s', j)
    {
      assert ChainOk(s, j);
    }
    forall i: nat, j: nat | i < j < |s'.signed|
      ensures LinksDiffer(s', i, j)
    {
      assert LinksDiffer(s, i, j);
    }
    forall i, j | i in s'.rows && j in s'.rows && i != j
      ensures AliveDiffer(s', i, j)
    {
      assert AliveDiffer(s, i, j);
    }
    forall k: nat | k < |s'.redeemed|
      ensures RedeemedOk(s', k)
    {
      assert RedeemedOk(s, k);
    }
  }

  /** What a new token must bring: its own chain, or a place after a spent token that has no
      successor yet, in a chain without an unspent token. */
  ghost predicate MayFollow(s: State, token: Signed) {
    match token.parent
    case None => token.family == |s.signed|
    case Some(p) =>
      && p < |s.signed| && Spent(s, p)
      && token.family == s.signed[p].family && SameHolder(token.claims, s.signed[p].claims)
      && (forall j: nat | j < |s.signed| :: s.signed[j].parent != Some(p))
      && (forall j: nat | j < |s.signed| && Unspent(s, j) :: s.signed[j].family != token.family)
  }

  lemma {:induction false} SignKeeps(s: State, token: Signed)
    requires Inv(s) && MayFollow(s, token)
    ensures Inv(s.(signed := s.signed + [token]))
  {
    var s' := s.(signed := s.signed + [token]);
    forall j | j in s'.rows
      ensures RowOk(s', j)
    {
      assert RowOk(s, j);
    }
    forall j: nat | j < |s'.signed|
      ensures ChainOk(s', j)
    {
      assert j < |s.signed| ==> ChainOk(s, j);
      assert token.parent.Some? ==> ChainOk(s, token.parent.value);
    }
    forall i: nat, j: nat | i < j < |s'.signed|
      ensures LinksDiffer(s', i, j)
    {
      assert j < |s.signed| ==> LinksDiffer(s, i, j);
    }
    forall i, j | i in s'.rows && j in s'.rows && i != j
      ensures AliveDiffer(s', i, j)
    {
      assert RowOk(s, i) && RowOk(s, j) && AliveDiffer(s, i, j);
    }
    forall k: nat | k < |s'.redeemed|
      ensures RedeemedOk(s', k)
    {
      assert RedeemedOk(s, k);
      var j: nat :| j < |s.signed| && s.signed[j].parent == Some(s.redeemed[k]);
      assert s'.signed[j] == s.signed[j];
    }
  }

  lemma {:induction false} StoreKeeps(s: State, jti: nat, row: Row)
    requires Inv(s) && jti !in s.rows && jti < |s.signed| && !row.revoked
    requires RowOk(s.(rows := s.rows[jti := row]), jti)
    requires forall j: nat | j < |s.signed| && Unspent(s, j) :: s.signed[j].family != s.signed[jti].family
    ensures Inv(s.(rows := s.rows[jti := row]))
  {
    var s' := s.(rows := s.rows[jti := row]);
    forall j | j in s'.rows
      ensures RowOk(s', j)
    {
      assert j != jti ==> RowOk(s, j);
    }
    forall j: nat | j < |s'.signed|
      ensures ChainOk(s', j)
    {
      assert ChainOk(s, j);
    }
    forall i: nat, j: nat | i < j < |s'.signed|
      ensures LinksDiffer(s', i, j)
    {
      assert LinksDiffer(s, i, j);
    }
    forall i, j | i in s'.rows && j in s'.rows && i != j
      ensures AliveDiffer(s', i, j)
    {
      assert i != jti ==> RowOk(s, i);
      assert j != jti ==> RowOk(s, j);
      assert i != jti && j != jti ==> AliveDiffer(s, i, j);
    }
    forall k: nat | k < |s'.redeemed|
      ensures RedeemedOk(s', k)
    {
      assert RedeemedOk(s, k);
    }
  }

  lemma {:induction false} NewIdUnused(s: State)
    requires Inv(s)
    ensures |s.signed| !in s.rows
  {
  }

  lemma {:induction false} MintKeeps(s: State, token: Signed, spare: nat, fault: Fault)
    requires Inv(s) && MayFollow(s, token)
    ensures Inv(Mint(s, token, spare, fault).0)
  {
    if fault != AtEncode {
      SignKeeps(s, token);
      var s1 := s.(signed := s.signed + [token]);
      var jti := |s.signed|;
      NewIdUnused(s);
      if fault != AtStore {
        var row := Mint(s, token, spare, fault).0.rows[jti];
        FamilyIsNew(s, token);
        StoreKeeps(s1, jti, row);
      }
    }
  }

  /** No unspent token is in the chain the new token goes to. */
  lemma {:induction false} FamilyIsNew(s: State, token: Signed)
    requires Inv(s) && MayFollow(s, token)
    ensures var s1 := s.(signed := s.signed + [token]);
            forall j: nat | j < |s1.signed| && Unspent(s1, j) :: s1.signed[j].family != token.family
  {
    var s1 := s.(signed := s.signed + [token]);
    forall j: nat | j < |s1.signed| && Unspent(s1, j)
      ensures s1.signed[j].family != token.family
    {
      assert RowOk(s, j) && ChainOk(s, j);
    }
  }

  /** Revoking the token about to be replaced is what lets its successor follow. */
  lemma {:induction false} RevokedMayBeFollowed(s: State, jti: nat, now: int)
    requires Inv(s) && jti < |s.signed| && !IsRevoked(s.rows, s.signed[jti].claims.tenant, jti, now)
    ensures var claims := s.signed[jti].claims;
            && Revoked(s.rows, claims.tenant, jti).Some?
            && MayFollow(s.(rows := Revoked(s.rows, claims.tenant, jti).value),
                         Signed(claims.(exp := now + REFRESH_TOKEN_LIFETIME_SECS), s.signed[jti].family, Some(jti)))
  {
    assert RowOk(s, jti) && ChainOk(s, jti);
    var s' := s.(rows := Revoked(s.rows, s.signed[jti].claims.tenant, jti).value);
    forall j: nat | j < |s'.signed|
      ensures s'.signed[j].parent != Some(jti)
    {
      assert ChainOk(s, j);
    }
    forall j: nat | j < |s'.signed| && Unspent(s', j)
      ensures s'.signed[j].family != s.signed[jti].family
    {
      assert AliveDiffer(s, j, jti);
    }
  }

  /** Noting a redeemed token: it is spent, and no earlier redemption had its successor. */
  lemma {:induction false} RedeemKeeps(s: State, jti: nat)
    requires Inv(s) && s.signed != [] && s.signed[|s.signed| - 1].parent == Some(jti)
    requires forall k: nat | k < |s.redeemed| :: HasSuccessor(s, s.redeemed[k], |s.signed| - 1)
    ensures Inv(s.(redeemed := s.redeemed + [jti]))
  {
    var s', last := s.(redeemed := s.redeemed + [jti]), |s.signed| - 1;
    assert ChainOk(s, last);
    forall k: nat | k < |s.redeemed|
      ensures s.redeemed[k] != jti
    {
      var j: nat :| j < last && s.signed[j].parent == Some(s.redeemed[k]);
      assert LinksDiffer(s, j, last);
    }
    forall j | j in s'.rows
      ensures RowOk(s', j)
    {
      assert RowOk(s, j);
    }
    forall j: nat | j < |s'.signed|
      ensures ChainOk(s', j)
    {
      assert ChainOk(s, j);
    }
    forall i: nat, j: nat | i < j < |s'.signed|
      ensures LinksDiffer(s', i, j)
    {
      assert LinksDiffer(s, i, j);
    }
    forall i, j | i in s'.rows && j in s'.rows && i != j
      ensures AliveDiffer(s', i, j)
    {
      assert AliveDiffer(s, i, j);
    }
    forall k: nat | k < |s'.redeemed|
      ensures RedeemedOk(s', k)
    {
      assert k < |s.redeemed| ==> RedeemedOk(s, k);
      assert s'.signed[last].parent == Some(jti);
    }
  }

  /** A redeemed token can be noted once its successor is the newest token signed. */
  lemma {:induction false} SuccessorKeeps(s: State, s2: State, token: Signed, jti: nat)
    requires Inv(s) && Inv(s2) && s2.signed == s.signed + [token] && s2.redeemed == s.redeemed
    requires token.parent == Some(jti)
    ensures Inv(s2.(redeemed := s2.redeemed + [jti]))
  {
    forall k: nat | k < |s2.redeemed|
      ensures HasSuccessor(s2, s2.redeemed[k], |s2.signed| - 1)
    {
      assert RedeemedOk(s, k);
      var j: nat :| j < |s.signed| && s.signed[j].parent == Some(s.redeemed[k]);
      assert s2.signed[j] == s.signed[j];
    }
    assert s2.signed[|s2.signed| - 1] == token;
    RedeemKeeps(s2, jti);
  }

  lemma {:induction false} RefreshKeeps(s: State, jti: nat, now: int, spare: nat, fault: Fault)
    requires Inv(s)
    ensures Inv(HandleRefresh(s, jti, now, spare, fault).0)
  {
    var s' := HandleRefresh(s, jti, now, spare, fault).0;
    if s' != s {
      var claims := s.signed[jti].claims;
      var s1 := s.(rows := Revoked(s.rows, claims.tenant, jti).value);
      RevokeKeeps(s, claims.tenant, jti);
      if fault != AfterRevoke {
        var token := Signed(claims.(exp := now + REFRESH_TOKEN_LIFETIME_SECS), s.signed[jti].family, Some(jti));
        RevokedMayBeFollowed(s, jti, now);
        MintKeeps(s1, token, spare, fault);
        var (s2, ok) := Mint(s1, token, spare, fault);
        if ok {
          SuccessorKeeps(s1, s2, token, jti);
        }
      }
    }
  }

  lemma {:induction false} StepKeeps(s: State, step: Step)
    requires Inv(s)
    ensures Inv(Act(s, step))
  {
    match step
    case Issue(tenant, user, device, now, spare, fault) =>
      MintKeeps(s, Signed(Claims(tenant, user, device, now + REFRESH_TOKEN_LIFETIME_SECS), |s.signed|, None), spare,
                fault);
    case Refresh(jti, now, spare, fault) => RefreshKeeps(s, jti, now, spare, fault);
    case Revoke(tenant, jti) =>
      if Revoked(s.rows, tenant, jti).Some? {
        RevokeKeeps(s, tenant, jti);
      }
  }

  lemma {:induction false} RunKeeps(steps: seq<Step>)
    ensures Inv(Run(EMPTY, steps))
  {
    if steps != [] {
      RunKeeps(steps[..|steps| - 1]);
      StepKeeps(Run(EMPTY, steps[..|steps| - 1]), steps[|steps| - 1]);
    }
  }

  // ---- What this means for callers ----

  /** Live: the store would not reject it. */
  predicate Live(s: State, jti: nat, now: int) {
    jti < |s.signed| && !IsRevoked(s.rows, s.signed[jti].claims.tenant, jti, now)
  }

  /** In every run, with failures anywhere, two live tokens are of different families. */
  lemma {:induction false} OneLivePerFamily(steps: seq<Step>, i: nat, j: nat, now: int)
    requires var s := Run(EMPTY, steps); Live(s, i, now) && Live(s, j, now) && i != j
    ensures var s := Run(EMPTY, steps); s.signed[i].family != s.signed[j].family
  {
    RunKeeps(steps);
    var s := Run(EMPTY, steps);
    assert AliveDiffer(s, i, j);
  }

  /** In every run no token is redeemed twice, and none has two successors. */
  lemma {:induction false} RedeemsOnce(steps: seq<Step>, k: nat, l: nat)
    ensures var s := Run(EMPTY, steps);
            && (k < l < |s.redeemed| ==> s.redeemed[k] != s.redeemed[l])
            && (k < l < |s.signed| && s.signed[l].parent.Some? ==> s.signed[k].parent != s.signed[l].parent)
  {
    RunKeeps(steps);
    var s := Run(EMPTY, steps);
    assert k < l < |s.signed| ==> LinksDiffer(s, k, l);
  }

  /** In every run tenant, user and device are the same along a family, and the stored row of
      a token agrees with its claims. */
  lemma {:induction false} HolderConstant(steps: seq<Step>, i: nat, j: nat)
    requires var s := Run(EMPTY, steps); i < |s.signed| && j < |s.signed| && s.signed[i].family == s.signed[j].family
    ensures var s := Run(EMPTY, steps);
            && SameHolder(s.signed[i].claims, s.signed[j].claims)
            && (i in s.rows ==>
                  s.rows[i].tenant == s.signed[j].claims.tenant && s.rows[i].user == s.signed[j].claims.user)
            && (i in s.rows && s.signed[j].claims.device.Some? ==> s.rows[i].device == s.signed[j].claims.device.value)
  {
    RunKeeps(steps);
    var s := Run(EMPTY, steps);
    assert ChainOk(s, i) && ChainOk(s, j);
    assert i in s.rows ==> RowOk(s, i);
  }

  lemma {:induction false} RefreshSucceeds(s: State, jti: nat, now: int, spare: nat, s': State, outcome: Outcome)
    requires Inv(s) && Live(s, jti, now) && (s', outcome) == HandleRefresh(s, jti, now, spare, NoFault)
    ensures outcome == Pair(|s.signed|, s.signed[jti].claims.(exp := now + 3600)) && |s'.signed| == |s.signed| + 1
    ensures Spent(s', jti) && s'.signed[jti] == s.signed[jti] && s'.rows[jti].tenant == s.signed[jti].claims.tenant
    ensures SameHolder(s'.signed[|s.signed|].claims, s.signed[jti].claims)
    ensures Unspent(s', |s.signed|) && s'.rows[|s.signed|].tenant == s.signed[jti].claims.tenant
    ensures s'.rows[|s.signed|].expiresAt == now + 2_592_000
  {
  }

  /** In every run a refresh yields a new pair exactly when nothing fails and the token is
      live; then the old token is dead for good, the new one is live for thirty days, and the
      access token has the same holder for an hour.  It is unauthorized exactly when the token
      does not decode or is checked and not live. */
  lemma {:induction false} RefreshExact(steps: seq<Step>, jti: nat, now: int, spare: nat, fault: Fault)
    ensures var s := Run(EMPTY, steps);
            var (s', outcome) := HandleRefresh(s, jti, now, spare, fault);
            && (outcome.Pair? <==> fault == NoFault && Live(s, jti, now))
            && (outcome.Unauthorized? <==>
                  jti >= |s.signed| || fault == AtDecode || (fault != AtCheck && !Live(s, jti, now)))
            && (outcome.Pair? ==>
                  && outcome.jti == |s.signed|
                  && (forall later :: !Live(s', jti, later))
                  && (forall later :: Live(s', outcome.jti, later) <==> later <= now + 2_592_000)
                  && SameHolder(s'.signed[outcome.jti].claims, s.signed[jti].claims)
                  && outcome.access == s.signed[jti].claims.(exp := now + 3600))
  {
    RunKeeps(steps);
    var s := Run(EMPTY, steps);
    var (s', outcome) := HandleRefresh(s, jti, now, spare, fault);
    if fault == NoFault && Live(s, jti, now) {
      RefreshSucceeds(s, jti, now, spare, s', outcome);
    }
  }

  lemma {:induction false} MintLeaves(s: State, token: Signed, spare: nat, fault: Fault, other: nat, later: int)
    requires Inv(s) && other < |s.signed|
    ensures Live(Mint(s, token, spare, fault).0, other, later) <==> Live(s, other, later)
  {
    hide Inv, RowOk;
  }

  lemma {:induction false} RevokeLeaves(s: State, tenant: nat, jti: nat, other: nat, later: int)
    requires Revoked(s.rows, tenant, jti).Some?
    ensures var s' := s.(rows := Revoked(s.rows, tenant, jti).value);
            && (other != jti ==> (Live(s', other, later) <==> Live(s, other, later)))
            && (jti < |s.signed| ==> !Live(s', jti, later))
  {
  }

  lemma {:induction false} HandlerLeaves(s: State, jti: nat, now: int, spare: nat, fault: Fault, other: nat, later: int)
    requires Inv(s)
    ensures var s' := HandleRefresh(s, jti, now, spare, fault).0;
            && (other != jti && other < |s.signed| ==> (Live(s', other, later) <==> Live(s, other, later)))
            && (Live(s', jti, later) <==>
                  && Live(s, jti, later)
                  && (!Live(s, jti, now) || fault == AtDecode || fault == AtCheck || fault == AtRevoke))
  {
    if Live(s, jti, now) && fault != AtDecode && fault != AtCheck && fault != AtRevoke {
      var claims := s.signed[jti].claims;
      RevokeLeaves(s, claims.tenant, jti, other, later);
      RevokeKeeps(s, claims.tenant, jti);
      var s1 := s.(rows := Revoked(s.rows, claims.tenant, jti).value);
      var token := Signed(claims.(exp := now + REFRESH_TOKEN_LIFETIME_SECS), s.signed[jti].family, Some(jti));
      MintLeaves(s1, token, spare, fault, jti, later);
      if other < |s.signed| {
        MintLeaves(s1, token, spare, fault, other, later);
      }
      hide Mint, Inv;
    }
  }

  /** In every run a refresh touches no token but its own, and kills its own exactly when that is
      live and nothing fails before the revocation. */
  lemma {:induction false} RefreshLeaves(steps: seq<Step>, jti: nat, now: int, spare: nat, fault: Fault, other: nat,
                                         later: int)
    ensures var s := Run(EMPTY, steps);
            var s' := HandleRefresh(s, jti, now, spare, fault).0;
            && (other != jti && other < |s.signed| ==> (Live(s', other, later) <==> Live(s, other, later)))
            && (Live(s', jti, later) <==>
                  && Live(s, jti, later)
                  && (!Live(s, jti, now) || fault == AtDecode || fault == AtCheck || fault == AtRevoke))
  {
    hide Run, HandleRefresh;
    RunKeeps(steps);
    HandlerLeaves(Run(EMPTY, steps), jti, now, spare, fault, other, later);
  }

  /** In every run an issue yields a pair exactly when neither encoding nor storing fails.  Then
      both tokens are for the given tenant, user and device, the refresh token is live for thirty
      days and begins a family of its own, and no other token is affected. */
  lemma {:induction false} IssueExact(steps: seq<Step>, tenant: nat, user: nat, device: Option<nat>, now: int,
                                      spare: nat, fault: Fault, other: nat, later: int)
    ensures var s := Run(EMPTY, steps);
            var (s', outcome) := IssueTokenPair(s, tenant, user, device, now, spare, fault);
            && (outcome.Pair? <==> fault != AtEncode && fault != AtStore && fault != AfterStore)
            && (other < |s.signed| ==>
                  s'.signed[other] == s.signed[other] && (Live(s', other, later) <==> Live(s, other, later)))
            && (outcome.Pair? ==>
                  && outcome == Pair(|s.signed|, Claims(tenant, user, device, now + 3600))
                  && |s'.signed| == |s.signed| + 1
                  && s'.signed[outcome.jti] == Signed(Claims(tenant, user, device, now + 2_592_000), outcome.jti, None)
                  && (Live(s', outcome.jti, later) <==> later <= now + 2_592_000)
                  && s'.rows[outcome.jti]
                     == Row(tenant, user, if device.Some? then device.value else spare, now + 2_592_000, false))
  {
    RunKeeps(steps);
    NewIdUnused(Run(EMPTY, steps));
  }

  lemma {:induction false} SpentKept(s: State, step: Step, jti: nat)
    requires Inv(s) && Spent(s, jti)
    ensures Spent(Act(s, step), jti)
  {
  }

  /** A spent token stays spent, whatever happens later. */
  lemma {:induction false} SpentForGood(s: State, more: seq<Step>, jti: nat)
    requires Inv(s) && Spent(s, jti)
    ensures Inv(Run(s, more)) && Spent(Run(s, more), jti)
  {
    if more != [] {
      SpentForGood(s, more[..|more| - 1], jti);
      StepKeeps(Run(s, more[..|more| - 1]), more[|more| - 1]);
      SpentKept(Run(s, more[..|more| - 1]), more[|more| - 1], jti);
    }
  }

  /** Presenting a redeemed token again, after any further steps, gives no pair and changes
      nothing. */
  lemma {:induction false} ReplayRefused(steps: seq<Step>, more: seq<Step>, k: nat, now: int, spare: nat, fault: Fault)
    requires k < |Run(EMPTY, steps).redeemed|
    ensures var s := Run(EMPTY, steps);
            var later := Run(s, more);
            var (s', outcome) := HandleRefresh(later, s.redeemed[k], now, spare, fault);
            s' == later && !outcome.Pair?
  {
    RunKeeps(steps);
    var s := Run(EMPTY, steps);
    assert RedeemedOk(s, k);
    SpentForGood(s, more, s.redeemed[k]);
    assert RowOk(Run(s, more), s.redeemed[k]);
  }

  // ---- The service ----

  class RefreshService {
    var rows: map<nat, Row>
    var signed: seq<Signed>
    var redeemed: seq<nat>

    function View(): State
      reads this
    {
      State(rows, signed, redeemed)
    }

    ghost predicate Valid()
      reads this
    {
      Inv(View())
    }

    constructor ()
      ensures Valid() && View() == EMPTY
    {
      rows, signed, redeemed := map[], [], [];
    }

    method StoreRefreshToken(jti: nat, row: Row) returns (ok: bool)
      modifies this`rows
      ensures ok == Stored(old(rows), jti, row).Some? == (jti !in old(rows))
      ensures rows == if ok then Stored(old(rows), jti, row).value else old(rows)
      ensures ok ==> forall now :: IsRevoked(rows, row.tenant, jti, now) <==> row.revoked || row.expiresAt < now
      ensures forall other: nat, tenant: nat, now: int | !ok || other != jti ::
                IsRevoked(rows, tenant, other, now) == IsRevoked(old(rows), tenant, other, now)
    {
      ok := jti !in rows;
      if ok {
        rows := rows[jti := row];
      }
    }

    method RevokeToken(tenant: nat, jti: nat) returns (found: bool)
      modifies this`rows
      ensures found == Revoked(old(rows), tenant, jti).Some?
      ensures rows == if found then Revoked(old(rows), tenant, jti).value else old(rows)
      ensures forall now :: IsRevoked(rows, tenant, jti, now)
      ensures forall other: nat, t: nat, now: int | (other, t) != (jti, tenant) ::
                IsRevoked(rows, t, other, now) == IsRevoked(old(rows), t, other, now)
    {
      found := jti in rows && rows[jti].tenant == tenant;
      if found {
        rows := rows[jti := rows[jti].(revoked := true)];
      }
    }

    method CheckRevoked(tenant: nat, jti: nat, now: int) returns (revoked: bool)
      ensures revoked
              <==> !(jti in rows && rows[jti].tenant == tenant && !rows[jti].revoked && now <= rows[jti].expiresAt)
    {
      if jti !in rows || rows[jti].tenant != tenant {
        return true;
      }
      revoked := rows[jti].revoked || rows[jti].expiresAt < now;
    }

    method MintToken(token: Signed, spare: nat, fault: Fault) returns (ok: bool)
      modifies this`rows, this`signed
      ensures (View(), ok) == Mint(old(View()), token, spare, fault)
    {
      if fault == AtEncode {
        return false;
      }
      var jti := |signed|;
      signed := signed + [token];
      if fault == AtStore {
        return false;
      }
      var device := if token.claims.device.Some? then token.claims.device.value else spare;
      ok := StoreRefreshToken(jti, Row(token.claims.tenant, token.claims.user, device, token.claims.exp, false));
      ok := ok && fault != AfterStore;
    }

    method IssuePair(tenant: nat, user: nat, device: Option<nat>, now: int, spare: nat, fault: Fault)
      returns (outcome: Outcome)
      requires Valid()
      modifies this
      ensures Valid() && (View(), outcome) == IssueTokenPair(old(View()), tenant, user, device, now, spare, fault)
    {
      StepKeeps(View(), Issue(tenant, user, device, now, spare, fault));
      var jti := |signed|;
      var ok := MintToken(Signed(Claims(tenant, user, device, now + REFRESH_TOKEN_LIFETIME_SECS), jti, None), spare,
                          fault);
      outcome := if ok then Pair(jti, Claims(tenant, user, device, now + ACCESS_TOKEN_LIFETIME_SECS)) else Internal;
    }

    method RefreshPair(jti: nat, now: int, spare: nat, fault: Fault) returns (outcome: Outcome)
      requires Valid()
      modifies this
      ensures Valid() && (View(), outcome) == HandleRefresh(old(View()), jti, now, spare, fault)
    {
      RefreshKeeps(View(), jti, now, spare, fault);
      if jti >= |signed| || fault == AtDecode {
        return Unauthorized;
      }
      var replaced := signed[jti];
      if fault == AtCheck {
        return Internal;
      }
      var revoked := CheckRevoked(replaced.claims.tenant, jti, now);
      if revoked {
        return Unauthorized;
      }
      if fault == AtRevoke {
        return Internal;
      }
      var found := RevokeToken(replaced.claims.tenant, jti);
      if !found {
        return Unauthorized;
      }
      if fault == AfterRevoke {
        return Internal;
      }
      var newJti := |signed|;
      var ok := MintToken(Signed(replaced.claims.(exp := now + REFRESH_TOKEN_LIFETIME_SECS), replaced.family,
                                 Some(jti)), spare, fault);
      if !ok {
        return Internal;
      }
      redeemed := redeemed + [jti];
      outcome := Pair(newJti, replaced.claims.(exp := now + ACCESS_TOKEN_LIFETIME_SECS));
    }
  }
}
