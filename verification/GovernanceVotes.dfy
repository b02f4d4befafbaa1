/** The governance vote log and its aggregate (governance-api.js). */
module GovernanceVotes {
  import opened Options
  import opened Sums
  import Base58

  const FRESH_WINDOW_MS := 10 * 60 * 1000
  const MIN_INTERVAL_MS := 1_000
  const MAX_VOTES_PER_WALLET_QUESTION := 20

  datatype Proposal = Proposal(active: bool, activatedAt: Option<int>, closesAt: Option<int>, questions: map<string, seq<string>>)

  type Registry = map<string, Proposal>

  /** Who votes on what. */
  datatype Ballot = Ballot(proposal: string, question: string, voter: string)

  /** The signed message after decoding and type checks. */
  datatype Payload = Payload(proposal: string, question: string, vote: string, nonce: string, issuedAt: int)

  /** A request: `payload` is None when any shape check before the registry
      lookups fails; the signature verdict is abstract. */
  datatype Submission = Submission(signer: string, payload: Option<Payload>, signatureValid: bool)

  /** A row of governance_votes. */
  datatype Row = Row(ballot: Ballot, vote: string, nonce: string, received: int)

  function BallotOf(sub: Submission): Ballot
    requires sub.payload.Some?
  {
    Ballot(sub.payload.value.proposal, sub.payload.value.question, sub.signer)
  }

  function Distance(a: int, b: int): nat {
    if a < b then b - a else a - b
  }

  predicate IsHex(c: char) {
    '0' <= c <= '9' || 'a' <= c <= 'f'
  }

  predicate NonceShape(nonce: string) {
    |nonce| == 32 && forall i :: 0 <= i < 32 ==> IsHex(nonce[i])
  }

  function CountFor(rows: seq<Row>, b: Ballot): nat {
    if rows == [] then 0 else
      CountFor(rows[..|rows| - 1], b) + if rows[|rows| - 1].ballot == b then 1 else 0
  }

  /** The unique index (proposal, question, voter, nonce) already has this entry. */
  predicate HasNonce(rows: seq<Row>, b: Ballot, nonce: string) {
    exists i :: 0 <= i < |rows| && rows[i].ballot == b && rows[i].nonce == nonce
  }

  /** The checks between the rate limit and the row count, as a status; 200 passes. */
  function Validate(reg: Registry, sub: Submission, now: int): nat {
    if sub.payload.None? then 400
    else
      var p := sub.payload.value;
      if !NonceShape(p.nonce) then 400
      else if Distance(now, p.issuedAt) > FRESH_WINDOW_MS then 400
      else if p.proposal !in reg then 404
      else
        var proposal := reg[p.proposal];
        if !proposal.active then 409
        else if p.question !in proposal.questions then 400
        else if p.vote !in proposal.questions[p.question] then 400
        else if proposal.closesAt.Some? && now > proposal.closesAt.value then 409
        else if proposal.activatedAt.Some? && p.issuedAt < proposal.activatedAt.value then 400
        else if !sub.signatureValid then 401
        else 200
  }

  /** A payload that may be counted: well-shaped nonce, recent, for an active proposal,
      question and choice that exist, neither after closing nor signed before activation. */
  predicate Eligible(reg: Registry, p: Payload, now: int) {
    && |p.nonce| == 32 && (forall i :: 0 <= i < 32 ==> '0' <= p.nonce[i] <= '9' || 'a' <= p.nonce[i] <= 'f')
    && p.issuedAt - 600_000 <= now <= p.issuedAt + 600_000
    && p.proposal in reg && reg[p.proposal].active
    && p.question in reg[p.proposal].questions && p.vote in reg[p.proposal].questions[p.question]
    && (reg[p.proposal].closesAt.Some? ==> now <= reg[p.proposal].closesAt.value)
    && (reg[p.proposal].activatedAt.Some? ==> reg[p.proposal].activatedAt.value <= p.issuedAt)
  }

  lemma ValidIff(reg: Registry, sub: Submission, now: int)
    ensures Validate(reg, sub, now) == 200 <==>
              sub.payload.Some? && Eligible(reg, sub.payload.value, now) && sub.signatureValid
  {
  }

  /** The first failing check decides the answer. */
  lemma RefusalIs(reg: Registry, sub: Submission, now: int)
    requires sub.payload.Some? && NonceShape(sub.payload.value.nonce)
    requires var p := sub.payload.value; p.issuedAt - 600_000 <= now <= p.issuedAt + 600_000
    ensures var p := sub.payload.value;
            && (p.proposal !in reg ==> Validate(reg, sub, now) == 404)
            && (p.proposal in reg ==>
                  var q := reg[p.proposal];
                  var listed := p.question in q.questions && p.vote in q.questions[p.question];
                  && (!q.active ==> Validate(reg, sub, now) == 409)
                  && (q.active && !listed ==> Validate(reg, sub, now) == 400)
                  && (q.active && listed && q.closesAt.Some? && q.closesAt.value < now ==> Validate(reg, sub, now) == 409))
            && (Eligible(reg, p, now) && !sub.signatureValid ==> Validate(reg, sub, now) == 401)
  {
  }

  datatype State = State(rows: seq<Row>, lastBySigner: map<string, int>)

  const Empty := State([], map[])

  function LastCall(s: State, signer: string): int {
    if signer in s.lastBySigner then s.lastBySigner[signer] else 0
  }

  function Status(reg: Registry, s: State, sub: Submission, now: int): nat {
    if now - LastCall(s, sub.signer) < MIN_INTERVAL_MS then 429
    else if Validate(reg, sub, now) != 200 then Validate(reg, sub, now)
    else if CountFor(s.rows, BallotOf(sub)) >= MAX_VOTES_PER_WALLET_QUESTION then 429
    else 200
  }

  /** State after one request, handled to the end. */
  function After(reg: Registry, s: State, sub: Submission, now: int, received: int): State {
    if Status(reg, s, sub, now) != 200 then s else
      var b, p := BallotOf(sub), sub.payload.value;
      State(if HasNonce(s.rows, b, p.nonce) then s.rows else s.rows + [Row(b, p.vote, p.nonce, received)],
            s.lastBySigner[sub.signer := now])
  }

  /** The stored rows of a ballot. */
  ghost function RowsOf(rows: seq<Row>, b: Ballot): set<int> {
    set i | 0 <= i < |rows| && rows[i].ballot == b
  }

  lemma RowsOfSnoc(front: seq<Row>, r: Row, b: Ballot)
    ensures RowsOf(front + [r], b) == RowsOf(front, b) + if r.ballot == b then {|front|} else {}
    ensures |front| !in RowsOf(front, b)
  {
    assert forall i :: 0 <= i < |front| ==> (front + [r])[i] == front[i];
  }

  lemma {:induction false} CountForIs(rows: seq<Row>, b: Ballot)
    ensures CountFor(rows, b) == |RowsOf(rows, b)|
    decreases |rows|
  {
    if rows == [] {
      assert RowsOf([], b) == {};
    } else {
      hide RowsOf;
      var n := |rows| - 1;
      CountForIs(rows[..n], b);
      RowsOfSnoc(rows[..n], rows[n], b);
      assert rows == rows[..n] + [rows[n]];
    }
  }

  /** Exactly when a submission is accepted: at least a second after the signer's last
      accepted one, eligible, signed, and with fewer than twenty rows on the ballot. */
  lemma AcceptedIff(reg: Registry, s: State, sub: Submission, now: int)
    ensures Status(reg, s, sub, now) == 200 <==>
              && (sub.signer in s.lastBySigner ==> s.lastBySigner[sub.signer] + 1_000 <= now)
              && (sub.signer !in s.lastBySigner ==> 1_000 <= now)
              && sub.payload.Some? && Eligible(reg, sub.payload.value, now) && sub.signatureValid
              && |RowsOf(s.rows, Ballot(sub.payload.value.proposal, sub.payload.value.question, sub.signer))| < 20
  {
    hide Validate, Eligible, CountFor, RowsOf;
    ValidIff(reg, sub, now);
    if sub.payload.Some? {
      CountForIs(s.rows, BallotOf(sub));
    }
  }

  /** What an accepted submission changes: the signer's time, and one row unless its
      nonce is stored for the ballot. A refused one changes nothing. */
  lemma AcceptedChanges(reg: Registry, s: State, sub: Submission, now: int, received: int)
    ensures var s' := After(reg, s, sub, now, received);
            if Status(reg, s, sub, now) != 200 then s' == s
            else
              var p := sub.payload.value;
              var b := Ballot(p.proposal, p.question, sub.signer);
              && s'.lastBySigner == s.lastBySigner[sub.signer := now]
              && s'.rows == if (exists i :: 0 <= i < |s.rows| && s.rows[i].ballot == b && s.rows[i].nonce == p.nonce)
                            then s.rows else s.rows + [Row(b, p.vote, p.nonce, received)]
  {
    hide Validate, CountFor;
  }

  class VoteApi {
    const registry: Registry
    var rows: seq<Row>
    var lastBySigner: map<string, int>

    ghost function Abstract(): State
      reads this
    {
      State(rows, lastBySigner)
    }

    constructor (registry: Registry)
      ensures this.registry == registry && Abstract() == Empty
    {
      this.registry, rows, lastBySigner := registry, [], map[];
    }

    /** `SELECT COUNT(*)` for one ballot. */
    method CountRows(b: Ballot) returns (n: nat)
      ensures n == CountFor(rows, b)
    {
      n := 0;
      for i := 0 to |rows|
        invariant n == CountFor(rows[..i], b)
      {
        assert rows[..i + 1][..i] == rows[..i];
        if rows[i].ballot == b {
          n := n + 1;
        }
      }
      assert rows[..|rows|] == rows;
    }

    method Submit(sub: Submission, now: int, received: int) returns (status: nat)
      modifies this
      ensures status == Status(registry, old(Abstract()), sub, now)
      ensures Abstract() == After(registry, old(Abstract()), sub, now, received)
    {
      var last := if sub.signer in lastBySigner then lastBySigner[sub.signer] else 0;
      if now - last < MIN_INTERVAL_MS {
        return 429;
      }
      status := Validate(registry, sub, now);
      if status != 200 {
        return;
      }
      var b, p := BallotOf(sub), sub.payload.value;
      var existingVotes := CountRows(b);
      if existingVotes >= MAX_VOTES_PER_WALLET_QUESTION {
        return 429;
      }
      lastBySigner := lastBySigner[sub.signer := now];
      if !HasNonce(rows, b, p.nonce) {
        rows := rows + [Row(b, p.vote, p.nonce, received)];
      }
    }
  }

  // ---- The aggregate query ----

  /** `DISTINCT ON (voter) ... ORDER BY received_at DESC` for one question. */
  function Latest(rows: seq<Row>, proposal: string, question: string): map<string, Row> {
    if rows == [] then map[] else
      var m, r := Latest(rows[..|rows| - 1], proposal, question), rows[|rows| - 1];
      if r.ballot.proposal == proposal && r.ballot.question == question
         && (r.ballot.voter in m ==> m[r.ballot.voter].received < r.received)
      then m[r.ballot.voter := r] else m
  }

  function Votes(latest: map<string, Row>): map<string, string> {
    map v | v in latest :: latest[v].vote
  }

  /** `GROUP BY vote` with `COUNT(*)`. */
  function Counts(votes: map<string, string>): map<string, nat> {
    map choice | choice in votes.Values :: |set v | v in votes && votes[v] == choice|
  }

  /** The published counts per choice. */
  function Tally(rows: seq<Row>, proposal: string, question: string): map<string, nat> {
    Counts(Votes(Latest(rows, proposal, question)))
  }

  /** The vote that counts for one wallet, if it has one. */
  function Counted(rows: seq<Row>, b: Ballot): Option<Row> {
    var latest := Latest(rows, b.proposal, b.question);
    if b.voter in latest then Some(latest[b.voter]) else None
  }

  /** The wallets with at least one stored vote on the question. */
  function Voters(rows: seq<Row>, proposal: string, question: string): set<string> {
    set r | r in rows && r.ballot.proposal == proposal && r.ballot.question == question :: r.ballot.voter
  }

  lemma {:induction false} LatestHolds(rows: seq<Row>, proposal: string, question: string)
    ensures Latest(rows, proposal, question).Keys == Voters(rows, proposal, question)
    ensures forall v :: v in Latest(rows, proposal, question) ==>
              var r := Latest(rows, proposal, question)[v];
              && r in rows && r.ballot == Ballot(proposal, question, v)
              && forall r' :: r' in rows && r'.ballot == r.ballot ==> r'.received <= r.received
  {
    if rows != [] {
      var front, last := rows[..|rows| - 1], rows[|rows| - 1];
      assert rows == front + [last];
      assert forall r :: r in rows <==> r in front || r == last;
      LatestHolds(front, proposal, question);
      var m := Latest(front, proposal, question);
      forall v | v in Latest(rows, proposal, question)
        ensures var r := Latest(rows, proposal, question)[v];
                && r in rows && r.ballot == Ballot(proposal, question, v)
                && forall r' :: r' in rows && r'.ballot == r.ballot ==> r'.received <= r.received
      {
        if last.ballot == Ballot(proposal, question, v) && v !in m {
          assert v !in Voters(front, proposal, question);
        }
      }
      assert Voters(rows, proposal, question) ==
             Voters(front, proposal, question)
             + if last.ballot.proposal == proposal && last.ballot.question == question
               then {last.ballot.voter} else {};
    }
  }

  /** Counting voters by choice counts each voter once. */
  lemma {:induction false} CountsSum(votes: map<string, string>)
    ensures Total(Counts(votes)) == |votes|
    decreases |votes|
  {
    hide Total;
    TotalEmpty<string>();
    if votes == map[] {
      assert Counts(votes) == map[];
    } else {
      var v :| v in votes;
      var rest, choice := votes - {v}, votes[v];
      CountsSum(rest);
      assert votes.Keys == rest.Keys + {v};
      forall c ensures At(Counts(votes), c) == At(Counts(rest), c) + if c == choice then 1 else 0 {
        GroupGrows(votes, v, c);
      }
      var one: map<string, nat> := map[choice := 1];
      TotalPut(map[], choice, 1);
      assert map[][choice := 1] == one;
      TotalPointwise(Counts(rest), one, Counts(votes));
    }
  }

  lemma GroupGrows(votes: map<string, string>, v: string, c: string)
    requires v in votes
    ensures At(Counts(votes), c) == At(Counts(votes - {v}), c) + if c == votes[v] then 1 else 0
  {
    var rest := votes - {v};
    var group, group' := set u | u in rest && rest[u] == c, set u | u in votes && votes[u] == c;
    AtIsGroup(votes, c);
    AtIsGroup(rest, c);
    if c == votes[v] {
      assert group' == group + {v};
    } else {
      assert group' == group;
    }
  }

  lemma AtIsGroup(votes: map<string, string>, c: string)
    ensures At(Counts(votes), c) == |set u | u in votes && votes[u] == c|
  {
    var group := set u | u in votes && votes[u] == c;
    if c in votes.Values {
      assert Counts(votes)[c] == |group|;
    } else {
      assert forall u :: u in votes ==> votes[u] in votes.Values;
      assert group == {};
    }
  }

  /** A wallet's vote counts exactly if it has stored rows, and then it is its
      newest row. */
  lemma CountedIsNewest(rows: seq<Row>, b: Ballot)
    ensures Counted(rows, b).Some? <==> b.voter in Voters(rows, b.proposal, b.question)
    ensures Counted(rows, b).Some? ==>
              && Counted(rows, b).value in rows && Counted(rows, b).value.ballot == b
              && forall r :: r in rows && r.ballot == b ==> r.received <= Counted(rows, b).value.received
  {
    LatestHolds(rows, b.proposal, b.question);
  }

  /** The voters whose counted vote is `choice`. */
  function Supporters(rows: seq<Row>, proposal: string, question: string, choice: string): set<string> {
    set v | v in Voters(rows, proposal, question)
            && Counted(rows, Ballot(proposal, question, v)).Some?
            && Counted(rows, Ballot(proposal, question, v)).value.vote == choice
  }

  /** The published counts add up to the number of distinct voters, and the count
      of a choice is the number of voters whose newest stored vote it is. */
  lemma TallyCountsVotersOnce(rows: seq<Row>, proposal: string, question: string)
    ensures Total(Tally(rows, proposal, question)) == |Voters(rows, proposal, question)|
    ensures forall choice :: At(Tally(rows, proposal, question), choice)
              == |Supporters(rows, proposal, question, choice)|
  {
    LatestHolds(rows, proposal, question);
    hide Latest, Total, Counts;
    var latest := Latest(rows, proposal, question);
    var votes := Votes(latest);
    CountsSum(votes);
    assert |votes| == |votes.Keys| && votes.Keys == Voters(rows, proposal, question);
    forall choice
      ensures At(Counts(votes), choice) == |Supporters(rows, proposal, question, choice)|
    {
      AtIsGroup(votes, choice);
      assert (set u | u in votes && votes[u] == choice) == Supporters(rows, proposal, question, choice);
    }
  }

  // ---- Texts and keys ----

  /** A request is verified against the key its `signerPubkey` denotes, and stored
      and counted under the text itself. */
  function KeysOf<K(==)>(texts: set<string>, keyOf: string -> K): set<K> {
    set t | t in texts :: keyOf(t)
  }

  ghost predicate OneTextPerKey<K>(texts: set<string>, keyOf: string -> K) {
    forall t, u :: t in texts && u in texts && keyOf(t) == keyOf(u) ==> t == u
  }

  lemma {:induction false} ImageSize<K>(texts: set<string>, keyOf: string -> K)
    ensures |KeysOf(texts, keyOf)| <= |texts|
    ensures |KeysOf(texts, keyOf)| == |texts| <==> OneTextPerKey(texts, keyOf)
  {
    if t :| t in texts {
      var rest := texts - {t};
      ImageSize(rest, keyOf);
      assert KeysOf(texts, keyOf) == KeysOf(rest, keyOf) + {keyOf(t)};
      if keyOf(t) in KeysOf(rest, keyOf) {
        var u :| u in rest && keyOf(u) == keyOf(t);
        assert !OneTextPerKey(texts, keyOf);
      } else {
        assert OneTextPerKey(rest, keyOf) <==> OneTextPerKey(texts, keyOf);
      }
    } else {
      assert texts == {} && KeysOf(texts, keyOf) == {};
    }
  }

  /** The tally counts each key once if and only if no key was accepted under two texts. */
  lemma TallyCountsKeysOnceIff<K>(rows: seq<Row>, proposal: string, question: string, keyOf: string -> K)
    ensures var voters := Voters(rows, proposal, question);
            Total(Tally(rows, proposal, question)) == |KeysOf(voters, keyOf)| <==> OneTextPerKey(voters, keyOf)
  {
    hide Tally, Voters, KeysOf, OneTextPerKey;
    TallyCountsVotersOnce(rows, proposal, question);
    ImageSize(Voters(rows, proposal, question), keyOf);
  }

  /** Base58 texts are such: each key has one. */
  lemma Base58KeysCountOnce(rows: seq<Row>, proposal: string, question: string)
    requires forall v :: v in Voters(rows, proposal, question) ==> Base58.Decode(v).Some?
    ensures Total(Tally(rows, proposal, question)) == |KeysOf(Voters(rows, proposal, question), Base58.Decode)|
  {
    hide Tally, Voters, KeysOf, Base58.Decode;
    var voters := Voters(rows, proposal, question);
    forall t, u | t in voters && u in voters && Base58.Decode(t) == Base58.Decode(u) ensures t == u {
      Base58.DecodeInjective(t, u);
    }
    TallyCountsKeysOnceIff(rows, proposal, question, Base58.Decode);
  }

  // ---- Request histories ----

  datatype Request = Request(sub: Submission, now: int, received: int)

  function Run(reg: Registry, s: State, reqs: seq<Request>): State {
    if reqs == [] then s else
      var r := reqs[|reqs| - 1];
      After(reg, Run(reg, s, reqs[..|reqs| - 1]), r.sub, r.now, r.received)
  }

  lemma {:induction false} RunConcat(reg: Registry, s: State, a: seq<Request>, b: seq<Request>)
    ensures Run(reg, s, a + b) == Run(reg, Run(reg, s, a), b)
    decreases |b|
  {
    hide After;
    if b == [] {
      assert a + b == a;
    } else {
      RunConcat(reg, s, a, b[..|b| - 1]);
      assert (a + b)[..|a + b| - 1] == a + b[..|b| - 1];
    }
  }

  /** Stored votes are legitimate: at most twenty per ballot, one per nonce, each
      a choice of its question; rows appear in the order they were received. */
  ghost predicate LogOk(reg: Registry, rows: seq<Row>) {
    && (forall b :: CountFor(rows, b) <= MAX_VOTES_PER_WALLET_QUESTION)
    && (forall i, j :: 0 <= i < j < |rows| ==> rows[i].ballot != rows[j].ballot || rows[i].nonce != rows[j].nonce)
    && (forall i, j :: 0 <= i < j < |rows| ==> rows[i].received < rows[j].received)
    && (forall r :: r in rows ==>
          && r.ballot.proposal in reg && r.ballot.question in reg[r.ballot.proposal].questions
          && r.vote in reg[r.ballot.proposal].questions[r.ballot.question])
  }

  predicate ReceivedInOrder(reqs: seq<Request>) {
    forall i, j :: 0 <= i < j < |reqs| ==> reqs[i].received < reqs[j].received
  }

  lemma {:induction false} HistoryOk(reg: Registry, reqs: seq<Request>)
    requires ReceivedInOrder(reqs)
    ensures LogOk(reg, Run(reg, Empty, reqs).rows)
    ensures forall r :: r in Run(reg, Empty, reqs).rows ==> reqs != [] && r.received <= reqs[|reqs| - 1].received
    decreases |reqs|
  {
    if reqs != [] {
      var front, q := reqs[..|reqs| - 1], reqs[|reqs| - 1];
      HistoryOk(reg, front);
      var s := Run(reg, Empty, front);
      var s' := After(reg, s, q.sub, q.now, q.received);
      if s'.rows != s.rows {
        var p := q.sub.payload.value;
        InsertKeepsLog(reg, s.rows, Row(BallotOf(q.sub), p.vote, p.nonce, q.received));
      }
      assert front != [] ==> front[|front| - 1].received < q.received;
    }
  }

  lemma InsertKeepsLog(reg: Registry, rows: seq<Row>, r: Row)
    requires LogOk(reg, rows) && CountFor(rows, r.ballot) < MAX_VOTES_PER_WALLET_QUESTION
    requires !HasNonce(rows, r.ballot, r.nonce)
    requires forall r' :: r' in rows ==> r'.received < r.received
    requires r.ballot.proposal in reg && r.ballot.question in reg[r.ballot.proposal].questions
             && r.vote in reg[r.ballot.proposal].questions[r.ballot.question]
    ensures LogOk(reg, rows + [r])
  {
    var rows' := rows + [r];
    assert rows'[..|rows|] == rows;
    forall b ensures CountFor(rows', b) <= MAX_VOTES_PER_WALLET_QUESTION {
      assert CountFor(rows, b) <= MAX_VOTES_PER_WALLET_QUESTION;
    }
  }

  /** The row is the one that this request asks for. */
  predicate Asks(q: Request, r: Row) {
    && q.sub.payload.Some?
    && r == Row(Ballot(q.sub.payload.value.proposal, q.sub.payload.value.question, q.sub.signer),
                q.sub.payload.value.vote, q.sub.payload.value.nonce, q.received)
  }

  /** Over any history each stored row was asked for by a request with a valid
      signature that was eligible when it arrived. */
  lemma {:induction false} StoredAreLegitimate(reg: Registry, reqs: seq<Request>, r: Row)
    requires r in Run(reg, Empty, reqs).rows
    ensures exists i :: 0 <= i < |reqs| && Asks(reqs[i], r) && reqs[i].sub.signatureValid
                        && Eligible(reg, reqs[i].sub.payload.value, reqs[i].now)
    decreases |reqs|
  {
    hide Eligible, Validate, CountFor, After;
    if reqs != [] {
      var n := |reqs| - 1;
      var q := reqs[n];
      var s := Run(reg, Empty, reqs[..n]);
      AcceptedChanges(reg, s, q.sub, q.now, q.received);
      AcceptedIff(reg, s, q.sub, q.now);
      if r in s.rows {
        StoredAreLegitimate(reg, reqs[..n], r);
        var i :| 0 <= i < n && Asks(reqs[..n][i], r) && reqs[..n][i].sub.signatureValid
                 && Eligible(reg, reqs[..n][i].sub.payload.value, reqs[..n][i].now);
        assert reqs[..n][i] == reqs[i];
      } else {
        assert Asks(reqs[n], r);
      }
    }
  }

  /** Over any history the time kept for a signer is not before an accepted request of
      its; so two of them are at least a second apart. */
  lemma {:induction false} AcceptedAreSpaced(reg: Registry, reqs: seq<Request>, i: nat, j: nat)
    requires i < j < |reqs| && reqs[i].sub.signer == reqs[j].sub.signer
    requires Status(reg, Run(reg, Empty, reqs[..i]), reqs[i].sub, reqs[i].now) == 200
    requires Status(reg, Run(reg, Empty, reqs[..j]), reqs[j].sub, reqs[j].now) == 200
    ensures reqs[i].now + 1_000 <= reqs[j].now
  {
    hide Run, Eligible;
    AcceptedIff(reg, Run(reg, Empty, reqs[..j]), reqs[j].sub, reqs[j].now);
    TimeKept(reg, reqs, i, j);
  }

  lemma {:induction false} TimeKept(reg: Registry, reqs: seq<Request>, i: nat, j: nat)
    requires i < j <= |reqs|
    requires Status(reg, Run(reg, Empty, reqs[..i]), reqs[i].sub, reqs[i].now) == 200
    ensures var s := Run(reg, Empty, reqs[..j]);
            reqs[i].sub.signer in s.lastBySigner && reqs[i].now <= s.lastBySigner[reqs[i].sub.signer]
    decreases j
  {
    hide After, Eligible;
    var before, q := Run(reg, Empty, reqs[..j - 1]), reqs[j - 1];
    assert reqs[..j][..j - 1] == reqs[..j - 1];
    AcceptedChanges(reg, before, q.sub, q.now, q.received);
    if i < j - 1 {
      TimeKept(reg, reqs, i, j - 1);
      AcceptedIff(reg, before, q.sub, q.now);
    }
  }

  /** Over any sequential history only listed choices are ever counted. */
  lemma OnlyListedChoices(reg: Registry, reqs: seq<Request>, proposal: string, question: string, choice: string)
    requires ReceivedInOrder(reqs)
    requires choice in Tally(Run(reg, Empty, reqs).rows, proposal, question)
    ensures proposal in reg && question in reg[proposal].questions && choice in reg[proposal].questions[question]
  {
    hide Run, Latest;
    var rows := Run(reg, Empty, reqs).rows;
    HistoryOk(reg, reqs);
    LatestHolds(rows, proposal, question);
    var latest := Latest(rows, proposal, question);
    var v :| v in Votes(latest) && Votes(latest)[v] == choice;
    assert latest[v] in rows;
  }

  /** Over any sequential history a wallet counts with the last vote stored. */
  lemma LastVoteCounts(reg: Registry, reqs: seq<Request>, i: nat)
    requires ReceivedInOrder(reqs) && i < |Run(reg, Empty, reqs).rows|
    requires var rows := Run(reg, Empty, reqs).rows;
             forall j :: i < j < |rows| ==> rows[j].ballot != rows[i].ballot
    ensures var rows := Run(reg, Empty, reqs).rows;
            Counted(rows, rows[i].ballot) == Some(rows[i])
  {
    hide Run, Latest;
    var rows := Run(reg, Empty, reqs).rows;
    HistoryOk(reg, reqs);
    var b := rows[i].ballot;
    CountedIsNewest(rows, b);
    assert rows[i] in rows;
    assert b.voter in Voters(rows, b.proposal, b.question);
    var k :| 0 <= k < |rows| && rows[k] == Counted(rows, b).value;
    assert rows[i].received <= rows[k].received;
  }

  /** No wallet stores more than twenty rows for one question. */
  lemma AtMostTwentyRows(reg: Registry, reqs: seq<Request>, b: Ballot)
    requires ReceivedInOrder(reqs)
    ensures |RowsOf(Run(reg, Empty, reqs).rows, b)| <= 20
  {
    CountForIs(Run(reg, Empty, reqs).rows, b);
    HistoryOk(reg, reqs);
  }

  /** The log only grows. */
  lemma {:induction false} LogGrows(reg: Registry, s: State, reqs: seq<Request>)
    ensures s.rows <= Run(reg, s, reqs).rows
    decreases |reqs|
  {
    if reqs != [] {
      LogGrows(reg, s, reqs[..|reqs| - 1]);
    }
  }

  /** Sending an accepted payload again, whatever happened in between and
      whenever that is, changes no row and so no tally. */
  lemma ResubmissionChangesNothing(reg: Registry, before: seq<Request>, accepted: Request, between: seq<Request>, now: int, received: int)
    requires Status(reg, Run(reg, Empty, before), accepted.sub, accepted.now) == 200
    ensures var s := Run(reg, Empty, before + [accepted] + between);
            After(reg, s, accepted.sub, now, received).rows == s.rows
  {
    var s0 := Run(reg, Empty, before);
    var s1 := After(reg, s0, accepted.sub, accepted.now, accepted.received);
    assert (before + [accepted])[..|before|] == before;
    assert Run(reg, Empty, before + [accepted]) == s1;
    RunConcat(reg, Empty, before + [accepted], between);
    var s := Run(reg, s1, between);
    LogGrows(reg, s1, between);
    var b, nonce := BallotOf(accepted.sub), accepted.sub.payload.value.nonce;
    NonceStored(reg, s0, accepted.sub, accepted.now, accepted.received);
    var i :| 0 <= i < |s1.rows| && s1.rows[i].ballot == b && s1.rows[i].nonce == nonce;
    assert s.rows[i] == s1.rows[i];
    assert HasNonce(s.rows, b, nonce);
  }

  lemma NonceStored(reg: Registry, s: State, sub: Submission, now: int, received: int)
    requires Status(reg, s, sub, now) == 200
    ensures HasNonce(After(reg, s, sub, now, received).rows, BallotOf(sub), sub.payload.value.nonce)
  {
    var b, p := BallotOf(sub), sub.payload.value;
    if !HasNonce(s.rows, b, p.nonce) {
      var rows' := s.rows + [Row(b, p.vote, p.nonce, received)];
      assert rows'[|s.rows|].ballot == b && rows'[|s.rows|].nonce == p.nonce;
    }
  }
}
