/** The authorization-code store: codes are created, callbacks attach a user, exchanges
    consume.  Every SQL statement is atomic; requests interleave between statements. */
module AuthCodes {
  import opened Options
  import opened JsonText

  // ----- Reading a stored record

  /** What one element of a doubly encoded array contributes. */
  function ItemRecord(c: Codec, item: Json): Record {
    match item
    case Obj(m) => m
    case Str(text) =>
      (match c.loads(text)
       case Some(Obj(m)) => m
       case _ => map[])
    case _ => map[]
  }

  function MergeItems(c: Codec, items: seq<Json>): Record {
    if items == [] then map[] else MergeItems(c, items[..|items| - 1]) + ItemRecord(c, items[|items| - 1])
  }

  function RecordOf(c: Codec, data: Json): Record {
    match data
    case Obj(m) => m
    case Arr(items) => MergeItems(c, items)
    case _ => map[]
  }

  /** `_parse_code_record`. */
  method ParseCodeRecord(c: Codec, data: Json) returns (record: Record)
    ensures record == RecordOf(c, data)
  {
    match data {
      case Obj(m) => return m;
      case Arr(items) =>
        record := map[];
        for i := 0 to |items|
          invariant record == MergeItems(c, items[..i])
        {
          assert items[..i + 1][..i] == items[..i];
          match items[i] {
            case Obj(m) => record := record + m;
            case Str(text) =>
              var parsed := c.loads(text);
              if parsed.Some? && parsed.value.Obj? { record := record + parsed.value.members; }
              else { assert record + map[] == record; }
            case _ => assert record + map[] == record;
          }
        }
        assert items[..|items|] == items;
      case _ => return map[];
    }
  }

  /** A record that was doubly encoded by an update reads as the merged record. */
  lemma DoubleEncodingRecovered(c: Codec, original: Record, patch: Record)
    requires Lawful(c)
    ensures RecordOf(c, Arr([Obj(original), Str(c.dumps(Obj(patch)))])) == original + patch
  {
    var items := [Obj(original), Str(c.dumps(Obj(patch)))];
    assert items[..1] == [Obj(original)] && items[..1][..0] == [];
    assert MergeItems(c, items[..1]) == map[] + original == original;
    assert c.loads(c.dumps(Obj(patch))) == Some(Obj(patch));
  }

  // ----- Codes

  /** What a code is bound to when it is created. */
  datatype Grant = Grant(client: string, redirect: string, challenge: string, scope: string, provider: string,
                         clientState: Option<string>)

  /** What a callback attaches. */
  datatype User = User(id: string, tenant: string, email: Option<string>)

  function GrantRecord(g: Grant): Record {
    map["client_id" := Str(g.client), "redirect_uri" := Str(g.redirect), "code_challenge" := Str(g.challenge),
        "scope" := Str(g.scope), "provider" := Str(g.provider), "client_state" := OptionalStr(g.clientState)]
  }

  function WithUser(record: Record, u: User): Record {
    record["user_id" := Str(u.id)]["tenant_id" := Str(u.tenant)]["email" := OptionalStr(u.email)]
  }

  /** The record still has what the code was created for. */
  predicate Binds(record: Record, g: Grant) {
    && "client_id" in record && record["client_id"] == Str(g.client)
    && "redirect_uri" in record && record["redirect_uri"] == Str(g.redirect)
    && "code_challenge" in record && record["code_challenge"] == Str(g.challenge)
  }

  /** The record names no user, or it names this one, entirely. */
  predicate Names(record: Record, u: User) {
    && "user_id" in record && record["user_id"] == Str(u.id)
    && "tenant_id" in record && record["tenant_id"] == Str(u.tenant)
    && "email" in record && record["email"] == OptionalStr(u.email)
  }

  predicate NamesNobody(record: Record) {
    "user_id" !in record
  }

  datatype Rejection = UnknownCode | ClientMismatch | RedirectMismatch | ChallengeMismatch

  datatype Verdict = Rejected(why: Rejection) | Issued(record: Record)

  /** The rows of the table, and the digest of section 4.6 of RFC 7636. */
  type Rows = map<string, string>

  datatype Request = Request(client: string, verifier: string, redirect: string)

  /** The checks of an exchange on the record it has consumed, in the program's order. */
  function Check(record: Record, r: Request, s256: string -> string): Verdict
    requires record != map[] ==> "client_id" in record && "redirect_uri" in record && "code_challenge" in record
  {
    if record == map[] then Rejected(UnknownCode)
    else if record["client_id"] != Str(r.client) then Rejected(ClientMismatch)
    else if record["redirect_uri"] != Str(r.redirect) then Rejected(RedirectMismatch)
    else if record["code_challenge"] != Str(s256(r.verifier)) then Rejected(ChallengeMismatch)
    else Issued(record)
  }

  /** What a row reads as; content that is not JSON would raise. */
  function Parsed(c: Codec, content: string): Record {
    match c.loads(content)
    case Some(j) => RecordOf(c, j)
    case None => map[]
  }

  // ----- All requests together

  /** A callback between its SELECT and its UPDATE. */
  datatype Callback = Callback(code: string, record: Record, user: User)

  datatype Outcome = Outcome(code: string, request: Request, verdict: Verdict)

  /** The table, the callbacks under way, and for the statement of what happened: what
      each code was created for, the users offered for it, and all exchanges so far. */
  datatype State = State(
    rows: Rows,
    callbacks: map<nat, Callback>,
    created: map<string, Grant>,
    offered: set<(string, User)>,
    outcomes: seq<Outcome>)

  datatype Action =
    | Create(code: string, grant: Grant)
    | CallbackReads(task: nat, code: string, user: User)
    | CallbackWrites(task: nat)
    | Exchange(code: string, request: Request)

  datatype World = World(codec: Codec, s256: string -> string)

  ghost predicate RowsBind(c: Codec, rows: Rows, created: map<string, Grant>) {
    forall k :: k in rows ==> k in created && Binds(Parsed(c, rows[k]), created[k])
  }

  predicate CallbacksBind(callbacks: map<nat, Callback>, created: map<string, Grant>) {
    forall t :: t in callbacks ==>
      callbacks[t].code in created && Binds(callbacks[t].record, created[callbacks[t].code])
  }

  ghost predicate WellFormed(w: World, s: State) {
    RowsBind(w.codec, s.rows, s.created) && CallbacksBind(s.callbacks, s.created)
  }

  /** One statement of one request.  A new code is a new UUID. */
  function Step(w: World, s: State, a: Action): State
    requires WellFormed(w, s)
  {
    match a
    case Create(code, grant) =>
      if code in s.created then s
      else s.(rows := s.rows[code := w.codec.dumps(Obj(GrantRecord(grant)))], created := s.created[code := grant])
    case CallbackReads(task, code, user) =>
      if task in s.callbacks || code !in s.rows then s
      else s.(callbacks := s.callbacks[task := Callback(code, Parsed(w.codec, s.rows[code]), user)],
              offered := s.offered + {(code, user)})
    case CallbackWrites(task) =>
      if task !in s.callbacks then s
      else
        var cb := s.callbacks[task];
        var content := w.codec.dumps(Obj(WithUser(cb.record, cb.user)));
        s.(callbacks := s.callbacks - {task}, rows := if cb.code in s.rows then s.rows[cb.code := content] else s.rows)
    case Exchange(code, r) =>
      var verdict := if code in s.rows then Check(Parsed(w.codec, s.rows[code]), r, w.s256) else Rejected(UnknownCode);
      s.(rows := s.rows - {code}, outcomes := s.outcomes + [Outcome(code, r, verdict)])
  }

  lemma ReadsAsWritten(c: Codec, record: Record)
    requires Lawful(c)
    ensures Parsed(c, c.dumps(Obj(record))) == record
  {
    assert c.loads(c.dumps(Obj(record))) == Some(Obj(record));
  }

  lemma PutKeepsBinding(c: Codec, rows: Rows, created: map<string, Grant>, code: string, record: Record)
    requires Lawful(c) && RowsBind(c, rows, created) && code in created && Binds(record, created[code])
    ensures RowsBind(c, rows[code := c.dumps(Obj(record))], created)
  {
    ReadsAsWritten(c, record);
  }

  lemma NewCodeKeepsBinding(s: State, code: string, grant: Grant)
    requires code !in s.created && CallbacksBind(s.callbacks, s.created)
    ensures CallbacksBind(s.callbacks, s.created[code := grant])
    ensures Binds(GrantRecord(grant), grant)
  {
  }

  lemma UserKeepsBinding(record: Record, user: User, grant: Grant)
    requires Binds(record, grant)
    ensures Binds(WithUser(record, user), grant)
  {
  }

  lemma CreateKeepsBinding(w: World, s: State, code: string, grant: Grant)
    requires Lawful(w.codec) && WellFormed(w, s)
    ensures WellFormed(w, Step(w, s, Create(code, grant)))
  {
    if code !in s.created {
      NewCodeKeepsBinding(s, code, grant);
      var created := s.created[code := grant];
      assert RowsBind(w.codec, s.rows, created);
      PutKeepsBinding(w.codec, s.rows, created, code, GrantRecord(grant));
    }
  }

  lemma ReadKeepsBinding(w: World, s: State, task: nat, code: string, user: User)
    requires WellFormed(w, s)
    ensures WellFormed(w, Step(w, s, CallbackReads(task, code, user)))
  {
    if task !in s.callbacks && code in s.rows {
      var record := Parsed(w.codec, s.rows[code]);
      assert Binds(record, s.created[code]);
      NewCallbackKeepsBinding(s.callbacks, s.created, task, Callback(code, record, user));
    }
  }

  lemma NewCallbackKeepsBinding(callbacks: map<nat, Callback>, created: map<string, Grant>, task: nat, cb: Callback)
    requires CallbacksBind(callbacks, created) && cb.code in created && Binds(cb.record, created[cb.code])
    ensures CallbacksBind(callbacks[task := cb], created)
  {
  }

  lemma WriteKeepsBinding(w: World, s: State, task: nat)
    requires Lawful(w.codec) && WellFormed(w, s)
    ensures WellFormed(w, Step(w, s, CallbackWrites(task)))
  {
    if task in s.callbacks && s.callbacks[task].code in s.rows {
      var cb := s.callbacks[task];
      UserKeepsBinding(cb.record, cb.user, s.created[cb.code]);
      PutKeepsBinding(w.codec, s.rows, s.created, cb.code, WithUser(cb.record, cb.user));
    }
  }

  /** Every statement keeps what each row and each callback under way is bound to. */
  lemma StepKeepsBinding(w: World, s: State, a: Action)
    requires Lawful(w.codec) && WellFormed(w, s)
    ensures WellFormed(w, Step(w, s, a))
  {
    match a {
      case Create(code, grant) => CreateKeepsBinding(w, s, code, grant);
      case CallbackReads(task, code, user) => ReadKeepsBinding(w, s, task, code, user);
      case CallbackWrites(task) => WriteKeepsBinding(w, s, task);
      case Exchange(code, r) =>
    }
  }

  /** Any interleaving: the statements of all requests in the order they happen. */
  ghost function Run(w: World, s: State, actions: seq<Action>): (after: State)
    requires Lawful(w.codec) && WellFormed(w, s)
    ensures WellFormed(w, after)
  {
    if actions == [] then s
    else
      var before := Run(w, s, actions[..|actions| - 1]);
      StepKeepsBinding(w, before, actions[|actions| - 1]);
      Step(w, before, actions[|actions| - 1])
  }

  predicate Consumed(o: Outcome) {
    o.verdict != Rejected(UnknownCode)
  }

  /** The user a record names is one that was offered for the code, as a whole. */
  ghost predicate UserOffered(record: Record, code: string, offered: set<(string, User)>) {
    NamesNobody(record) || exists u :: (code, u) in offered && Names(record, u)
  }

  /** Consumed codes are gone, no two exchanges consumed the same one, and tokens were
      issued only to requests that match what the code was created for. */
  ghost predicate Safe(w: World, s: State) {
    && (forall i :: 0 <= i < |s.outcomes| && Consumed(s.outcomes[i]) ==>
          s.outcomes[i].code in s.created && s.outcomes[i].code !in s.rows)
    && (forall i, j :: 0 <= i < j < |s.outcomes| && Consumed(s.outcomes[i]) && Consumed(s.outcomes[j]) ==>
          s.outcomes[i].code != s.outcomes[j].code)
    && (forall i :: 0 <= i < |s.outcomes| && s.outcomes[i].verdict.Issued? ==> Matches(w, s, s.outcomes[i]))
  }

  ghost predicate Matches(w: World, s: State, o: Outcome)
    requires o.verdict.Issued?
  {
    && o.code in s.created
    && o.request.client == s.created[o.code].client
    && o.request.redirect == s.created[o.code].redirect
    && w.s256(o.request.verifier) == s.created[o.code].challenge
    && UserOffered(o.verdict.record, o.code, s.offered)
  }

  ghost predicate RowsOffered(c: Codec, rows: Rows, offered: set<(string, User)>) {
    forall k :: k in rows ==> UserOffered(Parsed(c, rows[k]), k, offered)
  }

  /** Users come from callbacks for the same code. */
  ghost predicate UsersFromCallbacks(w: World, s: State) {
    && RowsOffered(w.codec, s.rows, s.offered)
    && (forall t :: t in s.callbacks ==> (s.callbacks[t].code, s.callbacks[t].user) in s.offered)
  }

  lemma OfferedGrows(record: Record, code: string, offered: set<(string, User)>, more: set<(string, User)>)
    requires UserOffered(record, code, offered) && offered <= more
    ensures UserOffered(record, code, more)
  {
    if !NamesNobody(record) {
      var u :| (code, u) in offered && Names(record, u);
      assert (code, u) in more;
    }
  }

  lemma PutKeepsUsers(c: Codec, rows: Rows, offered: set<(string, User)>, code: string, record: Record)
    requires Lawful(c) && RowsOffered(c, rows, offered) && UserOffered(record, code, offered)
    ensures RowsOffered(c, rows[code := c.dumps(Obj(record))], offered)
  {
    ReadsAsWritten(c, record);
  }

  lemma AttachedIsOffered(record: Record, user: User, code: string, offered: set<(string, User)>)
    requires (code, user) in offered
    ensures UserOffered(WithUser(record, user), code, offered)
  {
    assert Names(WithUser(record, user), user);
  }

  lemma StepKeepsUsers(w: World, s: State, a: Action)
    requires Lawful(w.codec) && WellFormed(w, s) && UsersFromCallbacks(w, s)
    ensures UsersFromCallbacks(w, Step(w, s, a))
  {
    match a {
      case Create(code, grant) =>
        if code !in s.created { PutKeepsUsers(w.codec, s.rows, s.offered, code, GrantRecord(grant)); }
      case CallbackReads(task, code, user) =>
        RowsOfferedGrows(w.codec, s.rows, s.offered, Step(w, s, a).offered);
      case CallbackWrites(task) => WriteKeepsUsers(w, s, task);
      case Exchange(code, r) =>
    }
  }

  lemma RowsOfferedGrows(c: Codec, rows: Rows, offered: set<(string, User)>, more: set<(string, User)>)
    requires RowsOffered(c, rows, offered) && offered <= more
    ensures RowsOffered(c, rows, more)
  {
    forall k | k in rows ensures UserOffered(Parsed(c, rows[k]), k, more) {
      OfferedGrows(Parsed(c, rows[k]), k, offered, more);
    }
  }

  lemma WriteKeepsUsers(w: World, s: State, task: nat)
    requires Lawful(w.codec) && WellFormed(w, s) && UsersFromCallbacks(w, s)
    ensures UsersFromCallbacks(w, Step(w, s, CallbackWrites(task)))
  {
    if task in s.callbacks && s.callbacks[task].code in s.rows {
      var cb := s.callbacks[task];
      AttachedIsOffered(cb.record, cb.user, cb.code, s.offered);
      PutKeepsUsers(w.codec, s.rows, s.offered, cb.code, WithUser(cb.record, cb.user));
    }
  }

  lemma MatchesStays(w: World, s: State, after: State, o: Outcome)
    requires o.verdict.Issued? && Matches(w, s, o) && s.offered <= after.offered
    requires forall c :: c in s.created ==> c in after.created && after.created[c] == s.created[c]
    ensures Matches(w, after, o)
  {
    OfferedGrows(o.verdict.record, o.code, s.offered, after.offered);
  }

  lemma CodesStay(w: World, s: State, a: Action)
    requires WellFormed(w, s)
    ensures s.offered <= Step(w, s, a).offered
    ensures forall c :: c in s.created ==> c in Step(w, s, a).created && Step(w, s, a).created[c] == s.created[c]
  {
  }

  lemma StepIsSafe(w: World, s: State, a: Action)
    requires Lawful(w.codec) && WellFormed(w, s) && UsersFromCallbacks(w, s) && Safe(w, s)
    ensures Safe(w, Step(w, s, a))
  {
    var after := Step(w, s, a);
    CodesStay(w, s, a);
    forall i | 0 <= i < |s.outcomes| && s.outcomes[i].verdict.Issued? ensures Matches(w, after, s.outcomes[i]) {
      MatchesStays(w, s, after, s.outcomes[i]);
    }
    if a.Exchange? {
      ExchangeIsSafe(w, s, a.code, a.request);
    } else {
      assert after.outcomes == s.outcomes && forall c :: c in s.created && c !in s.rows ==> c !in after.rows;
    }
  }

  lemma ExchangeIsSafe(w: World, s: State, code: string, r: Request)
    requires WellFormed(w, s) && UsersFromCallbacks(w, s) && Safe(w, s)
    ensures Safe(w, Step(w, s, Exchange(code, r)))
  {
    var after := Step(w, s, Exchange(code, r));
    forall i | 0 <= i < |s.outcomes| && s.outcomes[i].verdict.Issued? ensures Matches(w, after, s.outcomes[i]) {
      MatchesStays(w, s, after, s.outcomes[i]);
    }
    assert forall i :: 0 <= i < |s.outcomes| ==> after.outcomes[i] == s.outcomes[i];
    var o := after.outcomes[|s.outcomes|];
    if code in s.rows {
      assert UserOffered(Parsed(w.codec, s.rows[code]), code, s.offered);
    }
    assert o.verdict.Issued? ==> Matches(w, after, o);
  }

  /** Under every interleaving of creations, callbacks and exchanges. */
  lemma {:induction false} EveryRunIsSafe(w: World, s: State, actions: seq<Action>)
    requires Lawful(w.codec) && WellFormed(w, s) && UsersFromCallbacks(w, s) && Safe(w, s)
    ensures UsersFromCallbacks(w, Run(w, s, actions)) && Safe(w, Run(w, s, actions))
  {
    if actions != [] {
      var init, last := actions[..|actions| - 1], actions[|actions| - 1];
      EveryRunIsSafe(w, s, init);
      StepKeepsUsers(w, Run(w, s, init), last);
      StepIsSafe(w, Run(w, s, init), last);
    }
  }

  /** A service that starts with an empty table. */
  const FRESH := State(map[], map[], map[], {}, [])

  /** Single use: of all exchanges of one code at most one gets past consumption, and no
      callback brings the code back. */
  lemma SingleUse(w: World, actions: seq<Action>, i: nat, j: nat)
    requires Lawful(w.codec)
    requires i < j < |Run(w, FRESH, actions).outcomes|
    requires Run(w, FRESH, actions).outcomes[i].code == Run(w, FRESH, actions).outcomes[j].code
    ensures var s := Run(w, FRESH, actions);
            && !(Consumed(s.outcomes[i]) && Consumed(s.outcomes[j]))
            && (Consumed(s.outcomes[i]) || Consumed(s.outcomes[j]) ==> s.outcomes[i].code !in s.rows)
  {
    EveryRunIsSafe(w, FRESH, actions);
  }

  /** Tokens are issued only for the client, the redirect URI and the challenge fixed at
      creation, and only to nobody or to a user that a callback offered for that code. */
  lemma TokensMatchGrant(w: World, actions: seq<Action>, i: nat)
    requires Lawful(w.codec)
    requires i < |Run(w, FRESH, actions).outcomes| && Run(w, FRESH, actions).outcomes[i].verdict.Issued?
    ensures Matches(w, Run(w, FRESH, actions), Run(w, FRESH, actions).outcomes[i])
  {
    EveryRunIsSafe(w, FRESH, actions);
  }

  /** A request has consumed the code. */
  ghost predicate Spent(s: State, code: string) {
    exists i :: 0 <= i < |s.outcomes| && s.outcomes[i].code == code && Consumed(s.outcomes[i])
  }

  /** A created code stays until it is consumed. */
  ghost predicate StaysUntilSpent(s: State) {
    forall code :: code in s.created ==> code in s.rows || Spent(s, code)
  }

  lemma FoundIsConsumed(record: Record, g: Grant, r: Request, s256: string -> string)
    requires Binds(record, g)
    ensures Check(record, r, s256) ==
            if g.client != r.client then Rejected(ClientMismatch)
            else if g.redirect != r.redirect then Rejected(RedirectMismatch)
            else if g.challenge != s256(r.verifier) then Rejected(ChallengeMismatch)
            else Issued(record)
  {
    assert record != map[];
  }

  lemma SpentStays(s: State, o: Outcome, code: string)
    ensures Spent(s.(outcomes := s.outcomes + [o]), code) <==> Spent(s, code) || (o.code == code && Consumed(o))
  {
    var after := s.outcomes + [o];
    assert forall i :: 0 <= i < |s.outcomes| ==> after[i] == s.outcomes[i];
    assert after[|s.outcomes|] == o;
  }

  lemma StepKeepsCodes(w: World, s: State, a: Action)
    requires WellFormed(w, s) && StaysUntilSpent(s)
    ensures StaysUntilSpent(Step(w, s, a))
  {
    var after := Step(w, s, a);
    forall code | code in after.created ensures code in after.rows || Spent(after, code) {
      if a.Exchange? {
        ExchangeKeepsCode(w, s, a.code, a.request, code);
      } else {
        assert after.outcomes == s.outcomes && (code in s.created && Spent(s, code) ==> Spent(after, code));
      }
    }
  }

  lemma ExchangeKeepsCode(w: World, s: State, code: string, r: Request, other: string)
    requires WellFormed(w, s) && (other in s.rows || Spent(s, other))
    ensures var after := Step(w, s, Exchange(code, r));
            other in after.rows || Spent(after, other)
  {
    var after := Step(w, s, Exchange(code, r));
    if code in s.rows { FoundIsConsumed(Parsed(w.codec, s.rows[code]), s.created[code], r, w.s256); }
    SpentStays(s, after.outcomes[|s.outcomes|], other);
    assert Spent(after, other) <==> Spent(s.(outcomes := after.outcomes), other);
  }

  lemma {:induction false} CodesStayUntilSpent(w: World, actions: seq<Action>)
    requires Lawful(w.codec)
    ensures StaysUntilSpent(Run(w, FRESH, actions))
  {
    if actions != [] {
      var init, last := actions[..|actions| - 1], actions[|actions| - 1];
      CodesStayUntilSpent(w, init);
      StepKeepsCodes(w, Run(w, FRESH, init), last);
    }
  }

  /** The verdict on an exchange after any interleaving follows from what the code was
      created for: whatever callbacks have written, the first request for a code that was
      created gets tokens exactly when client, redirect URI and challenge match, and any
      later one gets none. */
  lemma ExchangeDecides(w: World, actions: seq<Action>, code: string, r: Request)
    requires Lawful(w.codec)
    ensures var s := Run(w, FRESH, actions);
            var outcomes := Step(w, s, Exchange(code, r)).outcomes;
            && |outcomes| == |s.outcomes| + 1
            && var verdict := outcomes[|s.outcomes|].verdict;
               && (verdict == Rejected(UnknownCode) <==> code !in s.created || Spent(s, code))
               && (verdict == Rejected(ClientMismatch) <==>
                     code in s.created && !Spent(s, code) && s.created[code].client != r.client)
               && (verdict == Rejected(RedirectMismatch) <==>
                     code in s.created && !Spent(s, code) && s.created[code].client == r.client &&
                     s.created[code].redirect != r.redirect)
               && (verdict.Issued? <==>
                     code in s.created && !Spent(s, code) && s.created[code].client == r.client &&
                     s.created[code].redirect == r.redirect && s.created[code].challenge == w.s256(r.verifier))
  {
    CodesStayUntilSpent(w, actions);
    EveryRunIsSafe(w, FRESH, actions);
    ExchangeFinds(w, Run(w, FRESH, actions), code, r);
  }

  lemma ExchangeFinds(w: World, s: State, code: string, r: Request)
    requires WellFormed(w, s) && StaysUntilSpent(s) && Safe(w, s)
    ensures var outcomes := Step(w, s, Exchange(code, r)).outcomes;
            && |outcomes| == |s.outcomes| + 1
            && outcomes[|s.outcomes|].verdict ==
               if code !in s.created || Spent(s, code) then Rejected(UnknownCode)
               else if s.created[code].client != r.client then Rejected(ClientMismatch)
               else if s.created[code].redirect != r.redirect then Rejected(RedirectMismatch)
               else if s.created[code].challenge != w.s256(r.verifier) then Rejected(ChallengeMismatch)
               else Issued(Parsed(w.codec, s.rows[code]))
  {
    assert code in s.rows <==> code in s.created && !Spent(s, code);
    if code in s.rows {
      FoundIsConsumed(Parsed(w.codec, s.rows[code]), s.created[code], r, w.s256);
    }
  }

  // ----- Whom the tokens are for, by the statements alone

  predicate Creates(actions: seq<Action>, code: string) {
    exists i :: 0 <= i < |actions| && actions[i].Create? && actions[i].code == code
  }

  /** What the code was created for: its first creation counts. */
  function GrantOf(actions: seq<Action>, code: string): Option<Grant> {
    if actions == [] then None
    else
      var earlier, last := GrantOf(actions[..|actions| - 1], code), actions[|actions| - 1];
      if earlier.None? && last.Create? && last.code == code then Some(last.grant) else earlier
  }

  /** The code was created, and no exchange came since. */
  predicate Stored(actions: seq<Action>, code: string) {
    actions != [] &&
    var init, last := actions[..|actions| - 1], actions[|actions| - 1];
    match last
    case Create(c, _) => Stored(init, code) || (c == code && GrantOf(init, code).None?)
    case Exchange(c, _) => Stored(init, code) && c != code
    case _ => Stored(init, code)
  }

  /** What the callback has read a row for, if its UPDATE is still to come. */
  function Reading(actions: seq<Action>, task: nat): Option<(string, User)> {
    if actions == [] then None
    else
      var init, last := actions[..|actions| - 1], actions[|actions| - 1];
      match last
      case CallbackReads(t, code, user) =>
        if t == task && Reading(init, task).None? && Stored(init, code) then Some((code, user)) else Reading(init, task)
      case CallbackWrites(t) => if t == task then None else Reading(init, task)
      case _ => Reading(init, task)
  }

  /** The user of the last callback whose UPDATE found the code. */
  function LastUser(actions: seq<Action>, code: string): Option<User> {
    if actions == [] then None
    else
      var init, last := actions[..|actions| - 1], actions[|actions| - 1];
      match last
      case CallbackWrites(task) =>
        (match Reading(init, task)
         case Some((c, user)) => if c == code && Stored(init, code) then Some(user) else LastUser(init, code)
         case None => LastUser(init, code))
      case _ => LastUser(init, code)
  }

  /** The record has everything of the grant, and this user entirely, or nobody. */
  predicate Carries(record: Record, g: Grant, user: Option<User>) {
    && Binds(record, g)
    && "scope" in record && record["scope"] == Str(g.scope)
    && "provider" in record && record["provider"] == Str(g.provider)
    && "client_state" in record && record["client_state"] == OptionalStr(g.clientState)
    && match user
       case Some(u) => Names(record, u)
       case None => "user_id" !in record && "tenant_id" !in record && "email" !in record
  }

  /** What the state has of a code, and its row, are what the statements so far made of them. */
  ghost predicate CodeFollows(w: World, s: State, actions: seq<Action>, code: string) {
    && GrantOf(actions, code) == (if code in s.created then Some(s.created[code]) else None)
    && (code in s.rows <==> Stored(actions, code))
    && (code in s.rows ==>
          code in s.created && Carries(Parsed(w.codec, s.rows[code]), s.created[code], LastUser(actions, code)))
  }

  /** So is a callback under way. */
  ghost predicate TaskFollows(s: State, actions: seq<Action>, task: nat) {
    if task in s.callbacks then
      var cb := s.callbacks[task];
      && Reading(actions, task) == Some((cb.code, cb.user))
      && cb.code in s.created && exists user :: Carries(cb.record, s.created[cb.code], user)
    else Reading(actions, task) == None
  }

  ghost predicate Follows(w: World, s: State, actions: seq<Action>) {
    (forall code :: CodeFollows(w, s, actions, code)) && (forall task :: TaskFollows(s, actions, task))
  }

  lemma NewRecordCarries(g: Grant)
    ensures Carries(GrantRecord(g), g, None)
  {
  }

  /** Whomever the record named, it names the new user afterwards. */
  lemma AttachedCarries(record: Record, g: Grant, was: Option<User>, user: User)
    requires Carries(record, g, was)
    ensures Carries(WithUser(record, user), g, Some(user))
  {
  }

  lemma {:induction false} StoredWasCreated(actions: seq<Action>, code: string)
    ensures Stored(actions, code) ==> GrantOf(actions, code).Some?
    ensures LastUser(actions, code).Some? ==> GrantOf(actions, code).Some?
  {
    if actions != [] {
      StoredWasCreated(actions[..|actions| - 1], code);
    }
  }

  lemma CreateFollows(w: World, s: State, actions: seq<Action>, a: Action, code: string)
    requires Lawful(w.codec) && WellFormed(w, s) && a.Create? && CodeFollows(w, s, actions, code)
    ensures CodeFollows(w, Step(w, s, a), actions + [a], code)
  {
    assert (actions + [a])[..|actions|] == actions;
    StoredWasCreated(actions, code);
    NewRecordCarries(a.grant);
    ReadsAsWritten(w.codec, GrantRecord(a.grant));
  }

  lemma WrittenCarries(c: Codec, cb: Callback, g: Grant)
    requires Lawful(c) && exists was :: Carries(cb.record, g, was)
    ensures Carries(Parsed(c, c.dumps(Obj(WithUser(cb.record, cb.user)))), g, Some(cb.user))
  {
    var was :| Carries(cb.record, g, was);
    AttachedCarries(cb.record, g, was, cb.user);
    ReadsAsWritten(c, WithUser(cb.record, cb.user));
  }

  /** An UPDATE changes what the statements say about a code only if it found the code. */
  lemma WriteGrows(actions: seq<Action>, task: nat, code: string)
    ensures var more := actions + [CallbackWrites(task)];
            && GrantOf(more, code) == GrantOf(actions, code) && (Stored(more, code) <==> Stored(actions, code))
            && LastUser(more, code) ==
               match Reading(actions, task)
               case Some((c, user)) =>
                 if c == code && Stored(actions, code) then Some(user) else LastUser(actions, code)
               case None => LastUser(actions, code)
  {
    assert (actions + [CallbackWrites(task)])[..|actions|] == actions;
  }

  lemma WriteRows(w: World, s: State, task: nat)
    requires WellFormed(w, s) && task in s.callbacks
    ensures var cb := s.callbacks[task];
            Step(w, s, CallbackWrites(task)).rows ==
            if cb.code in s.rows then s.rows[cb.code := w.codec.dumps(Obj(WithUser(cb.record, cb.user)))] else s.rows
  {
  }

  lemma WriteState(w: World, s: State, task: nat, code: string)
    requires WellFormed(w, s)
    ensures var after := Step(w, s, CallbackWrites(task));
            && after.created == s.created && (code in after.rows <==> code in s.rows)
            && (code in s.rows && (task !in s.callbacks || s.callbacks[task].code != code) ==>
                  after.rows[code] == s.rows[code])
            && (task in s.callbacks && s.callbacks[task].code == code && code in s.rows ==>
                  after.rows[code] == w.codec.dumps(Obj(WithUser(s.callbacks[task].record, s.callbacks[task].user))))
  {
    if task in s.callbacks { WriteRows(w, s, task); }
  }

  lemma WriteFollows(w: World, s: State, actions: seq<Action>, task: nat, code: string)
    requires Lawful(w.codec) && WellFormed(w, s) && CodeFollows(w, s, actions, code) && TaskFollows(s, actions, task)
    ensures CodeFollows(w, Step(w, s, CallbackWrites(task)), actions + [CallbackWrites(task)], code)
  {
    WriteGrows(actions, task, code);
    WriteState(w, s, task, code);
    if task in s.callbacks && s.callbacks[task].code == code && code in s.rows {
      WrittenCarries(w.codec, s.callbacks[task], s.created[code]);
    }
  }

  lemma CodeStep(w: World, s: State, actions: seq<Action>, a: Action, code: string)
    requires Lawful(w.codec) && WellFormed(w, s) && Follows(w, s, actions)
    ensures CodeFollows(w, Step(w, s, a), actions + [a], code)
  {
    assert (actions + [a])[..|actions|] == actions;
    assert CodeFollows(w, s, actions, code);
    match a {
      case Create(_, _) => CreateFollows(w, s, actions, a, code);
      case CallbackWrites(task) =>
        assert TaskFollows(s, actions, task);
        WriteFollows(w, s, actions, task, code);
      case _ =>
    }
  }

  lemma ReadCallback(w: World, s: State, task: nat, code: string, user: User)
    requires WellFormed(w, s) && task !in s.callbacks
    ensures var after := Step(w, s, CallbackReads(task, code, user));
            && after.rows == s.rows && after.created == s.created
            && (code in s.rows ==>
                  task in after.callbacks &&
                  after.callbacks[task] == Callback(code, Parsed(w.codec, s.rows[code]), user))
  {
  }

  lemma TaskStep(w: World, s: State, actions: seq<Action>, a: Action, task: nat)
    requires Lawful(w.codec) && WellFormed(w, s) && Follows(w, s, actions)
    ensures TaskFollows(Step(w, s, a), actions + [a], task)
  {
    assert TaskFollows(s, actions, task);
    ReadingGrows(actions, a, task);
    if a.CallbackReads? && a.task == task && task !in s.callbacks {
      assert CodeFollows(w, s, actions, a.code);
      ReadCallback(w, s, task, a.code, a.user);
      if a.code in s.rows {
        ReadFollows(Step(w, s, a), actions + [a], task, Callback(a.code, Parsed(w.codec, s.rows[a.code]), a.user),
                    LastUser(actions, a.code));
      }
    } else {
      OtherTask(w, s, a, task);
    }
  }

  lemma ReadingGrows(actions: seq<Action>, a: Action, task: nat)
    ensures Reading(actions + [a], task) ==
            if a == CallbackWrites(task) then None
            else if a.CallbackReads? && a.task == task && Reading(actions, task).None? && Stored(actions, a.code) then
              Some((a.code, a.user))
            else Reading(actions, task)
  {
    assert (actions + [a])[..|actions|] == actions;
  }

  lemma ReadFollows(s: State, actions: seq<Action>, task: nat, cb: Callback, user: Option<User>)
    requires task in s.callbacks && s.callbacks[task] == cb && Reading(actions, task) == Some((cb.code, cb.user))
    requires cb.code in s.created && Carries(cb.record, s.created[cb.code], user)
    ensures TaskFollows(s, actions, task)
  {
  }

  lemma OtherTask(w: World, s: State, a: Action, task: nat)
    requires WellFormed(w, s) && !(a.CallbackReads? && a.task == task && task !in s.callbacks)
    ensures var after := Step(w, s, a);
            && (task in after.callbacks <==> task in s.callbacks && a != CallbackWrites(task))
            && (task in after.callbacks ==> after.callbacks[task] == s.callbacks[task])
            && forall c :: c in s.created ==> c in after.created && after.created[c] == s.created[c]
  {
    match a {
      case Create(_, _) =>
      case CallbackReads(_, _, _) =>
      case CallbackWrites(_) =>
      case Exchange(_, _) =>
    }
  }

  lemma {:induction false} EveryRunFollows(w: World, actions: seq<Action>)
    requires Lawful(w.codec)
    ensures Follows(w, Run(w, FRESH, actions), actions)
  {
    if actions != [] {
      var init, last := actions[..|actions| - 1], actions[|actions| - 1];
      assert init + [last] == actions;
      EveryRunFollows(w, init);
      var s := Run(w, FRESH, init);
      forall code ensures CodeFollows(w, Step(w, s, last), actions, code) { CodeStep(w, s, init, last, code); }
      forall task ensures TaskFollows(Step(w, s, last), actions, task) { TaskStep(w, s, init, last, task); }
    }
  }

  /** Over every interleaving: the record that an exchange is answered with has what the
      code was created for and names the user of the last callback whose UPDATE came before,
      entirely, whatever the callbacks had read; without such a callback it names nobody. */
  lemma IssuedForLastUser(w: World, actions: seq<Action>, code: string, r: Request)
    requires Lawful(w.codec)
    ensures var s := Run(w, FRESH, actions);
            var outcomes := Step(w, s, Exchange(code, r)).outcomes;
            && |outcomes| == |s.outcomes| + 1
            && var verdict := outcomes[|s.outcomes|].verdict;
               && (verdict == Rejected(UnknownCode) <==> !Stored(actions, code))
               && (verdict.Issued? ==>
                     && GrantOf(actions, code).Some?
                     && Carries(verdict.record, GrantOf(actions, code).value, LastUser(actions, code)))
  {
    EveryRunFollows(w, actions);
    CodesStayUntilSpent(w, actions);
    EveryRunIsSafe(w, FRESH, actions);
    ExchangeFinds(w, Run(w, FRESH, actions), code, r);
    assert CodeFollows(w, Run(w, FRESH, actions), actions, code);
    RowsDecideVerdict(w, Run(w, FRESH, actions), code, r);
  }

  lemma RowsDecideVerdict(w: World, s: State, code: string, r: Request)
    requires WellFormed(w, s)
    ensures var outcomes := Step(w, s, Exchange(code, r)).outcomes;
            |outcomes| == |s.outcomes| + 1 &&
            (outcomes[|s.outcomes|].verdict == Rejected(UnknownCode) <==> code !in s.rows)
  {
    if code in s.rows { FoundIsConsumed(Parsed(w.codec, s.rows[code]), s.created[code], r, w.s256); }
  }

  // ----- The statements as methods

  /** The store: one method per SQL statement, and the exchange.  `state` follows the run. */
  class CodeStore {
    const w: World
    var rows: Rows
    ghost var state: State

    ghost predicate Valid()
      reads this
    {
      Lawful(w.codec) && WellFormed(w, state) && state.rows == rows
    }

    constructor (w: World)
      requires Lawful(w.codec)
      ensures this.w == w && Valid() && state == FRESH
    {
      this.w, this.rows, this.state := w, map[], FRESH;
    }

    /** `create_authorization_code`, with a code that was never used. */
    method CreateAuthorizationCode(code: string, grant: Grant)
      requires Valid() && code !in state.created
      modifies this
      ensures Valid() && state == Step(w, old(state), Create(code, grant))
      ensures rows == old(rows)[code := w.codec.dumps(Obj(GrantRecord(grant)))]
    {
      StepKeepsBinding(w, state, Create(code, grant));
      state := Step(w, state, Create(code, grant));
      rows := rows[code := w.codec.dumps(Obj(GrantRecord(grant)))];
    }

    /** `get_authorization_code`. */
    method GetAuthorizationCode(code: string) returns (record: Option<Record>)
      ensures record == if code in rows then Some(Parsed(w.codec, rows[code])) else None
    {
      if code !in rows { return None; }
      var data := w.codec.loads(rows[code]);
      if data == None { return Some(map[]); }
      var parsed := ParseCodeRecord(w.codec, data.value);
      return Some(parsed);
    }

    /** The SELECT of a callback, `set_authorization_code_user`. */
    method ReadForUser(ghost task: nat, code: string, user: User) returns (record: Option<Record>)
      requires Valid() && task !in state.callbacks
      modifies this`state
      ensures Valid() && state == Step(w, old(state), CallbackReads(task, code, user))
      ensures record == None <==> code !in rows
      ensures record.Some? ==> task in state.callbacks && state.callbacks[task] == Callback(code, record.value, user)
    {
      record := GetAuthorizationCode(code);
      StepKeepsBinding(w, state, CallbackReads(task, code, user));
      ReadCallback(w, state, task, code, user);
      state := Step(w, state, CallbackReads(task, code, user));
    }

    /** The UPDATE of the callback: it changes a row that is there and makes none. */
    method WriteUser(ghost task: nat, code: string, record: Record, user: User)
      requires Valid() && task in state.callbacks && state.callbacks[task] == Callback(code, record, user)
      modifies this
      ensures Valid() && state == Step(w, old(state), CallbackWrites(task))
      ensures rows == if code in old(rows) then old(rows)[code := w.codec.dumps(Obj(WithUser(record, user)))]
              else old(rows)
    {
      StepKeepsBinding(w, state, CallbackWrites(task));
      WriteRows(w, state, task);
      state := Step(w, state, CallbackWrites(task));
      if code in rows {
        rows := rows[code := w.codec.dumps(Obj(WithUser(record, user)))];
      }
    }

    /** DELETE ... RETURNING, the statement of an exchange. */
    method ConsumeAuthorizationCode(code: string) returns (record: Option<Record>)
      modifies this`rows
      ensures record == if code in old(rows) then Some(Parsed(w.codec, old(rows)[code])) else None
      ensures rows == old(rows) - {code}
    {
      record := GetAuthorizationCode(code);
      rows := rows - {code};
    }

    /** The checks of an exchange, on the record that was consumed. */
    method CheckRecord(record: Record, r: Request) returns (verdict: Verdict)
      requires record != map[] ==> "client_id" in record && "redirect_uri" in record && "code_challenge" in record
      ensures verdict == Check(record, r, w.s256)
    {
      if record == map[] { return Rejected(UnknownCode); }
      if record["client_id"] != Str(r.client) { return Rejected(ClientMismatch); }
      if record["redirect_uri"] != Str(r.redirect) { return Rejected(RedirectMismatch); }
      var computed := w.s256(r.verifier);
      if Str(computed) != record["code_challenge"] { return Rejected(ChallengeMismatch); }
      return Issued(record);
    }

    /** `exchange_authorization_code`, up to the lookup of the user. */
    method ExchangeAuthorizationCode(code: string, r: Request) returns (verdict: Verdict)
      requires Valid()
      modifies this
      ensures Valid() && state == Step(w, old(state), Exchange(code, r))
      ensures rows == old(rows) - {code}
      ensures verdict == state.outcomes[|old(state).outcomes|].verdict
      ensures verdict == if code in old(rows) then Check(Parsed(w.codec, old(rows)[code]), r, w.s256)
              else Rejected(UnknownCode)
    {
      StepKeepsBinding(w, state, Exchange(code, r));
      state := Step(w, state, Exchange(code, r));
      var record := ConsumeAuthorizationCode(code);
      if record == None { return Rejected(UnknownCode); }
      verdict := CheckRecord(record.value, r);
    }
  }
}
