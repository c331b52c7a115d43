/** Reversal chains, and what they make of the balance of an account in a branch. */
module Reversals {
  import opened Prelude
  import opened Text
  import opened Calendar
  import opened Money
  import opened Journal
  import opened Ledger
  import opened Invariant
  import opened Replay

  // ----- Balances -----

  /** Debits less credits of one account in one branch. */
  function Net(lines: seq<Stored>, account: int, branch: int): int
  {
    if lines == [] then 0 else
      var l := lines[|lines| - 1];
      Net(lines[..|lines| - 1], account, branch)
      + if l.account == account && l.branch == branch then l.debit - l.credit else 0
  }

  /** The balance that the entries from position i on make up. */
  function BalanceFrom(es: seq<Entry>, i: nat, account: int, branch: int): int
    requires i <= |es|
    decreases |es| - i
  {
    if i == |es| then 0 else Net(es[i].lines, account, branch) + BalanceFrom(es, i + 1, account, branch)
  }

  function Balance(es: seq<Entry>, account: int, branch: int): int { BalanceFrom(es, 0, account, branch) }

  lemma {:induction false} MirrorNegates(lines: seq<Stored>, account: int, branch: int)
    ensures Net(Mirror(lines), account, branch) == -Net(lines, account, branch)
  {
    if lines != [] {
      var n := |lines| - 1;
      assert Mirror(lines)[..n] == Mirror(lines[..n]);
      MirrorNegates(lines[..n], account, branch);
    }
  }

  /** Line by line: the sides exchanged; number, account, branch and currency details the same. */
  ghost predicate Mirrored(ls: seq<Stored>, ms: seq<Stored>)
  {
    && |ls| == |ms|
    && forall k :: 0 <= k < |ls| ==>
         && ms[k].debit == ls[k].credit && ms[k].credit == ls[k].debit
         && ms[k].lineNo == ls[k].lineNo && ms[k].account == ls[k].account && ms[k].branch == ls[k].branch
         && ms[k].currency == ls[k].currency && ms[k].foreignAmount == ls[k].foreignAmount
         && ms[k].rate == ls[k].rate
  }

  lemma {:induction false} MirrorExchanges(ls: seq<Stored>)
    requires WellFormed(ls)
    ensures Mirrored(ls, Mirror(ls))
  {
  }

  // ----- Chains -----

  ghost predicate AtMostOneReversal(es: seq<Entry>)
  {
    forall i, j :: 0 <= i < j < |es| && es[i].reverses.Some? ==> es[i].reverses != es[j].reverses
  }

  ghost predicate Follows(es: seq<Entry>, i: nat)
    requires i < |es|
  {
    es[i].reverses.Some? ==>
      1 <= es[i].reverses.value <= i && es[i].lines == Mirror(es[es[i].reverses.value - 1].lines)
  }

  ghost predicate AllFollow(es: seq<Entry>)
  {
    forall i :: 0 <= i < |es| ==> Follows(es, i)
  }

  /** Every reversal follows and mirrors what it reverses, and is the only one to reverse it. */
  ghost predicate Chained(es: seq<Entry>)
  {
    AllFollow(es) && AtMostOneReversal(es)
  }

  /** Unique keys leave room for one reversal of an entry. */
  lemma {:induction false} EntriesChained(es: seq<Entry>)
    requires EntriesOk(es)
    ensures Chained(es)
  {
    forall i | 0 <= i < |es|
      ensures Follows(es, i)
    {
      assert LinkOk(es, i);
    }
    forall i, j | 0 <= i < j < |es| && es[i].reverses.Some?
      ensures es[i].reverses != es[j].reverses
    {
      assert LinkOk(es, i) && LinkOk(es, j);
    }
  }

  lemma {:induction false} FollowsMirrored(es: seq<Entry>, i: nat)
    requires AllWellFormed(es) && i < |es| && Follows(es, i) && es[i].reverses.Some?
    ensures Mirrored(es[es[i].reverses.value - 1].lines, es[i].lines)
  {
    var original := es[es[i].reverses.value - 1];
    assert WellFormed(original.lines);
    MirrorExchanges(original.lines);
  }

  lemma {:induction false} ReachableChained(b: Books)
    requires Reachable(b)
    ensures Chained(b.entries) && AllWellFormed(b.entries)
  {
    ReachableOk(b);
    EntriesChained(b.entries);
  }

  /** After any run, every reversal still mirrors the entry it reverses, and is the only one to. */
  lemma {:induction false} ReversalMirrors(b: Books, i: nat)
    requires Reachable(b) && i < |b.entries| && b.entries[i].reverses.Some?
    ensures 1 <= b.entries[i].reverses.value <= i
    ensures Mirrored(b.entries[b.entries[i].reverses.value - 1].lines, b.entries[i].lines)
    ensures forall j :: 0 <= j < |b.entries| && j != i ==> b.entries[j].reverses != b.entries[i].reverses
  {
    ReachableChained(b);
    assert Follows(b.entries, i);
    FollowsMirrored(b.entries, i);
  }

  /** The position, from `from` on, of the first reversal of an entry; |es| when there is none. */
  function ReversalAt(es: seq<Entry>, entryId: int, from: nat): (j: nat)
    requires from <= |es|
    ensures from <= j <= |es|
    ensures j < |es| ==> es[j].reverses == Some(entryId)
    ensures forall k :: from <= k < j ==> es[k].reverses != Some(entryId)
    decreases |es| - from
  {
    if from == |es| || es[from].reverses == Some(entryId) then from
    else ReversalAt(es, entryId, from + 1)
  }

  /** An entry, its reversal, the reversal of that, and so on. */
  function Chain(es: seq<Entry>, i: nat): (c: seq<nat>)
    requires i < |es|
    ensures c != [] && c[0] == i
    ensures forall p :: 0 <= p < |c| ==> i <= c[p] < |es|
    decreases |es| - i
  {
    var j := ReversalAt(es, i + 1, i + 1);
    if j < |es| then [i] + Chain(es, j) else [i]
  }

  predicate IsHead(es: seq<Entry>, i: nat)
    requires i < |es|
  {
    es[i].reverses.None?
  }

  /** Entry j is the reversal of the earlier entry i. */
  ghost predicate Linked(es: seq<Entry>, i: nat, j: nat)
    requires j < |es|
  {
    i < j && es[j].reverses == Some(i + 1)
  }

  /** Ids grow along a chain, each entry reverses the one before it, and the last is not reversed. */
  lemma {:induction false} ChainShape(es: seq<Entry>, i: nat)
    requires Chained(es) && i < |es|
    ensures var c := Chain(es, i);
            && (forall p :: 0 <= p < |c| - 1 ==> Linked(es, c[p], c[p + 1]))
            && !Reversed(es, c[|c| - 1] + 1)
    decreases |es| - i
  {
    var j := ReversalAt(es, i + 1, i + 1);
    if j < |es| {
      ChainShape(es, j);
      var c, rest := Chain(es, i), Chain(es, j);
      assert c == [i] + rest;
      forall p | 0 <= p < |c| - 1
        ensures Linked(es, c[p], c[p + 1])
      {
        if p > 0 {
          assert Linked(es, rest[p - 1], rest[p]);
        }
      }
    } else {
      forall k | 0 <= k < |es|
        ensures es[k].reverses != Some(i + 1)
      {
        assert Follows(es, k);
      }
    }
  }

  /** The head of the chain an entry is on. */
  function HeadOf(es: seq<Entry>, i: nat): (h: nat)
    requires i < |es| && Chained(es)
    ensures h <= i && IsHead(es, h)
    decreases i
  {
    assert Follows(es, i);
    if es[i].reverses.None? then i else HeadOf(es, es[i].reverses.value - 1)
  }

  lemma {:induction false} ChainContinues(es: seq<Entry>, i: nat)
    requires Chained(es) && i < |es| && es[i].reverses.Some?
    ensures 1 <= es[i].reverses.value <= i
    ensures Chain(es, es[i].reverses.value - 1) == [es[i].reverses.value - 1] + Chain(es, i)
  {
    assert Follows(es, i);
    var o := es[i].reverses.value - 1;
    assert ReversalAt(es, o + 1, o + 1) == i;
  }

  lemma {:induction false} OnChainOfHead(es: seq<Entry>, i: nat, x: nat)
    requires Chained(es) && i < |es| && x in Chain(es, i)
    ensures x in Chain(es, HeadOf(es, i))
    decreases i
  {
    if es[i].reverses.Some? {
      ChainContinues(es, i);
      OnChainOfHead(es, es[i].reverses.value - 1, x);
    }
  }

  lemma {:induction false} ChainHasOneHead(es: seq<Entry>, i: nat, x: nat)
    requires Chained(es) && i < |es| && x in Chain(es, i)
    ensures HeadOf(es, x) == HeadOf(es, i)
    decreases |es| - i
  {
    var j := ReversalAt(es, i + 1, i + 1);
    if x != i {
      assert j < |es|;
      assert Chain(es, i)[1..] == Chain(es, j);
      ChainHasOneHead(es, j, x);
    }
  }

  /** The chains of the heads partition the entries: each entry is on the chain of one head. */
  lemma {:induction false} ChainsPartition(es: seq<Entry>, i: nat, h: nat)
    requires Chained(es) && i < |es| && h < |es| && IsHead(es, h)
    ensures i in Chain(es, h) <==> h == HeadOf(es, i)
  {
    assert Chain(es, i)[0] == i;
    OnChainOfHead(es, i, i);
    if i in Chain(es, h) {
      ChainHasOneHead(es, h, i);
    }
  }

  // ----- Telescoping -----

  /** What the chain from i on contributes: its first entry when its length is odd, nothing otherwise. */
  function Telescoped(es: seq<Entry>, i: nat, account: int, branch: int): int
    requires i < |es|
  {
    if |Chain(es, i)| % 2 == 1 then Net(es[i].lines, account, branch) else 0
  }

  /** The contributions of the heads from position i on, and of them alone. */
  function OddHeads(es: seq<Entry>, i: nat, account: int, branch: int): int
    requires i <= |es|
    decreases |es| - i
  {
    if i == |es| then 0
    else (if IsHead(es, i) then Telescoped(es, i, account, branch) else 0)
         + OddHeads(es, i + 1, account, branch)
  }

  lemma {:induction false} ChainGrows(es: seq<Entry>, i: nat)
    requires i < |es|
    ensures var j := ReversalAt(es, i + 1, i + 1);
            |Chain(es, i)| == 1 + if j < |es| then |Chain(es, j)| else 0
  {
  }

  lemma {:induction false} Cancels(c: nat, d: nat, n: int, m: int)
    requires c == 1 + d && m == -n
    ensures (if c % 2 == 1 then n else 0) == n + if d % 2 == 1 then m else 0
  {
  }

  lemma {:induction false} TelescopeStep(es: seq<Entry>, i: nat, account: int, branch: int)
    requires AllFollow(es) && i < |es|
    ensures var j := ReversalAt(es, i + 1, i + 1);
            Telescoped(es, i, account, branch)
            == Net(es[i].lines, account, branch)
               + if j < |es| then Telescoped(es, j, account, branch) else 0
  {
    var j := ReversalAt(es, i + 1, i + 1);
    ChainGrows(es, i);
    if j < |es| {
      assert Follows(es, j);
      MirrorNegates(es[i].lines, account, branch);
      Cancels(|Chain(es, i)|, |Chain(es, j)|, Net(es[i].lines, account, branch), Net(es[j].lines, account, branch));
    }
  }

  /** Among the entries from k on, the heads are those that reverse nothing at or after k. */
  predicate IsHeadFrom(es: seq<Entry>, k: nat, m: nat)
    requires m < |es|
  {
    es[m].reverses.Some? ==> es[m].reverses.value <= k
  }

  function HeadsFrom(es: seq<Entry>, k: nat, i: nat, account: int, branch: int): int
    requires i <= |es|
    decreases |es| - i
  {
    if i == |es| then 0
    else (if IsHeadFrom(es, k, i) then Telescoped(es, i, account, branch) else 0)
         + HeadsFrom(es, k, i + 1, account, branch)
  }

  /** Taking entry k in: its reversal, if any, stops being a head. */
  lemma {:induction false} HeadsShift(es: seq<Entry>, k: nat, i: nat, account: int, branch: int)
    requires Chained(es) && k < i <= |es|
    ensures var j := ReversalAt(es, k + 1, i);
            HeadsFrom(es, k + 1, i, account, branch)
            == HeadsFrom(es, k, i, account, branch)
               + if j < |es| then Telescoped(es, j, account, branch) else 0
    decreases |es| - i
  {
    if i < |es| {
      HeadsShift(es, k, i + 1, account, branch);
      if es[i].reverses == Some(k + 1) {
        assert ReversalAt(es, k + 1, i + 1) == |es|;
      }
    }
  }

  lemma {:induction false} SuffixTelescopes(es: seq<Entry>, k: nat, account: int, branch: int)
    requires Chained(es) && k <= |es|
    ensures BalanceFrom(es, k, account, branch) == HeadsFrom(es, k, k, account, branch)
    decreases |es| - k
  {
    if k < |es| {
      assert Follows(es, k);
      SuffixTelescopes(es, k + 1, account, branch);
      HeadsShift(es, k, k + 1, account, branch);
      TelescopeStep(es, k, account, branch);
    }
  }

  lemma {:induction false} HeadsFromStart(es: seq<Entry>, i: nat, account: int, branch: int)
    requires Chained(es) && i <= |es|
    ensures HeadsFrom(es, 0, i, account, branch) == OddHeads(es, i, account, branch)
    decreases |es| - i
  {
    if i < |es| {
      assert Follows(es, i);
      HeadsFromStart(es, i + 1, account, branch);
    }
  }

  /** The balance is made by the heads of the chains of odd length, and by nothing else. */
  lemma {:induction false} BalanceTelescopes(es: seq<Entry>, account: int, branch: int)
    requires EntriesOk(es)
    ensures Balance(es, account, branch) == OddHeads(es, 0, account, branch)
  {
    EntriesChained(es);
    SuffixTelescopes(es, 0, account, branch);
    HeadsFromStart(es, 0, account, branch);
  }

  /** The same in every reachable state. */
  lemma {:induction false} ReachableBalanceTelescopes(b: Books, account: int, branch: int)
    requires Reachable(b)
    ensures Balance(b.entries, account, branch) == OddHeads(b.entries, 0, account, branch)
  {
    ReachableOk(b);
    BalanceTelescopes(b.entries, account, branch);
  }

  // ----- What one reversal does -----

  lemma {:induction false} BalanceOfLast(es: seq<Entry>, e: Entry, i: nat, account: int, branch: int)
    requires i <= |es|
    ensures BalanceFrom(es + [e], i, account, branch)
            == BalanceFrom(es, i, account, branch) + Net(e.lines, account, branch)
    decreases |es| - i
  {
    if i < |es| {
      BalanceOfLast(es, e, i + 1, account, branch);
    } else {
      assert BalanceFrom(es + [e], i + 1, account, branch) == 0;
    }
  }

  /** A reversal takes what its entry did out of every balance, whenever it is made. */
  lemma {:induction false} ReversalUndoes(b: Books, id: int, reason: Option<string>, date: Option<Date>,
                                          today: Date, account: int, branch: int)
    requires Reverse(b, id, reason, date, today).1.Ok?
    ensures HasEntry(b.entries, id)
    ensures Balance(Reverse(b, id, reason, date, today).0.entries, account, branch)
            == Balance(b.entries, account, branch) - Net(b.entries[id - 1].lines, account, branch)
  {
    ReverseOutcome(b, id, reason, date, today);
    MirrorNegates(b.entries[id - 1].lines, account, branch);
    BalanceOfLast(b.entries, Reverse(b, id, reason, date, today).1.value, 0, account, branch);
  }

  /** Posting and then reversing what was posted leaves every balance as it was. */
  lemma {:induction false} PostThenReverse(b: Books, env: Env, r: PostRequest, reason: Option<string>,
                                           date: Option<Date>, today: Date, account: int, branch: int)
    requires Post(b, env, r).1.Ok? && Post(b, env, r).1.value.Some?
    requires Reverse(Post(b, env, r).0, |b.entries| + 1, reason, date, today).1.Ok?
    ensures Balance(Reverse(Post(b, env, r).0, |b.entries| + 1, reason, date, today).0.entries, account, branch)
            == Balance(b.entries, account, branch)
  {
    PostOutcome(b, env, r);
    BalanceOfLast(b.entries, Post(b, env, r).1.value.value, 0, account, branch);
    ReversalUndoes(Post(b, env, r).0, |b.entries| + 1, reason, date, today, account, branch);
  }

  lemma {:induction false} ReversalComesLast(b: Books, id: int, reason: Option<string>, date: Option<Date>,
                                             today: Date, account: int, branch: int)
    requires Reverse(b, id, reason, date, today).1.Ok?
    ensures var es := Reverse(b, id, reason, date, today).0.entries;
            && HasEntry(b.entries, id) && |es| == |b.entries| + 1
            && Net(es[|b.entries|].lines, account, branch) == -Net(b.entries[id - 1].lines, account, branch)
  {
    ReverseOutcome(b, id, reason, date, today);
    MirrorNegates(b.entries[id - 1].lines, account, branch);
  }

  /** Reversing the reversal as well brings the entry back into every balance. */
  lemma {:induction false} ReverseTwice(b: Books, id: int, reason: Option<string>, date: Option<Date>, today: Date,
                                        reason': Option<string>, date': Option<Date>, today': Date,
                                        account: int, branch: int)
    requires Reverse(b, id, reason, date, today).1.Ok?
    requires Reverse(Reverse(b, id, reason, date, today).0, |b.entries| + 1, reason', date', today').1.Ok?
    ensures Balance(Reverse(Reverse(b, id, reason, date, today).0, |b.entries| + 1,
                            reason', date', today').0.entries, account, branch)
            == Balance(b.entries, account, branch)
  {
    ReversalUndoes(b, id, reason, date, today, account, branch);
    ReversalComesLast(b, id, reason, date, today, account, branch);
    ReversalUndoes(Reverse(b, id, reason, date, today).0, |b.entries| + 1, reason', date', today', account, branch);
  }

  lemma {:induction false} ReversalRecorded(b: Books, id: int, reason: Option<string>, date: Option<Date>,
                                            today: Date)
    requires Inv(b) && Reverse(b, id, reason, date, today).1.Ok?
    ensures var (b', r) := Reverse(b, id, reason, date, today);
            && HasEntry(b.entries, id) && b'.entries == b.entries + [r.value]
            && r.value.reverses == Some(id) && r.value.sourceType == REVERSAL && Denotes(r.value.sourceId, id)
            && r.value.date == (if date.Some? then date.value else today)
            && Mirrored(b.entries[id - 1].lines, r.value.lines)
            && Reversed(b'.entries, id)
  {
    ReverseOutcome(b, id, reason, date, today);
    assert WellFormed(b.entries[id - 1].lines);
    MirrorExchanges(b.entries[id - 1].lines);
    var (b', r) := Reverse(b, id, reason, date, today);
    IntTextDenotes(id);
    assert b'.entries[|b.entries|] == r.value;
  }

  // ----- What a reversal says -----

  /** memo is what a line that undoes line n says: its number, in digits. */
  predicate MemoNames(memo: Option<string>, n: int)
  {
    var text := "Reversal of line ";
    memo.Some? && text <= memo.value && Denotes(memo.value[|text|..], n)
  }

  lemma {:induction false} MirrorMemo(l: Stored)
    requires l.lineNo >= 0
    ensures MemoNames(MirrorLine(l).memo, l.lineNo)
  {
    IntTextDenotes(l.lineNo);
    var text := "Reversal of line ";
    assert MirrorLine(l).memo.value[|text|..] == IntText(l.lineNo);
  }

  predicate NamesNobody(l: Stored) { l.customer.None? && l.supplier.None? && l.employee.None? }

  /** Each line names the line it undoes, and no party. */
  ghost predicate MirrorsSay(lines: seq<Stored>)
  {
    forall k :: 0 <= k < |lines| ==> NamesNobody(lines[k]) && MemoNames(lines[k].memo, k + 1)
  }

  lemma {:induction false} MirrorSays(lines: seq<Stored>)
    requires WellFormed(lines)
    ensures MirrorsSay(Mirror(lines))
  {
    forall k | 0 <= k < |lines|
      ensures NamesNobody(Mirror(lines)[k]) && MemoNames(Mirror(lines)[k].memo, k + 1)
    {
      MirrorMemo(lines[k]);
    }
  }

  /** The description of a reversal: the id that was reversed, then the reason when there is one. */
  function Announcement(digits: string, reason: Option<string>): string
  {
    if reason.None? || reason.value == "" then "Reversal of JE #" + digits
    else "Reversal of JE #" + digits + " (" + reason.value + ")"
  }

  /** cut is what is left of text within n characters. */
  predicate CutTo(cut: string, text: string, n: nat)
  {
    cut <= text && (if |text| <= n then |cut| == |text| else |cut| == n)
  }

  lemma {:induction false} DescriptionAnnounces(id: int, reason: Option<string>)
    ensures CutTo(ReversalDescription(id, reason), Announcement(IntText(id), reason), 512)
  {
  }

  /**
   Everything else that a reversal is stored with: source, key and description name the entry reversed,
   each line names the line it undoes.
   */
  lemma {:induction false} ReversalText(b: Books, id: int, reason: Option<string>, date: Option<Date>, today: Date)
    requires Reachable(b) && Reverse(b, id, reason, date, today).1.Ok?
    ensures var e := Reverse(b, id, reason, date, today).1.value;
            && e.id == |b.entries| + 1 && e.sourceType == "journal_reversal" && Denotes(e.sourceId, id)
            && e.key == "journal_reversal:" + e.sourceId
            && CutTo(e.description, Announcement(e.sourceId, reason), 512)
            && MirrorsSay(e.lines) && e.batch == 0
  {
    ReachableOk(b);
    ReverseOutcome(b, id, reason, date, today);
    IntTextDenotes(id);
    DescriptionAnnounces(id, reason);
    assert WellFormed(b.entries[id - 1].lines);
    MirrorSays(b.entries[id - 1].lines);
  }

  // ----- What posts and edits do to a balance -----

  /** The cents submitted for one account in one branch, debits less credits. */
  function SubmittedNet(lines: seq<RawLine>, scale: Scale, account: int, branch: int): int
  {
    if lines == [] then 0 else
      var before, l := SubmittedNet(lines[..|lines| - 1], scale, account, branch), lines[|lines| - 1];
      if l.account == account && l.branch == branch then before + CentsOf(l.debit, scale) - CentsOf(l.credit, scale)
      else before
  }

  lemma {:induction false} NetAsSubmitted(lines: seq<RawLine>, scale: Scale, account: int, branch: int)
    ensures Net(StoreAll(Drafts(lines, scale)), account, branch) == SubmittedNet(lines, scale, account, branch)
  {
    if lines != [] {
      var n := |lines| - 1;
      NetAsSubmitted(lines[..n], scale, account, branch);
      assert StoreAll(Drafts(lines, scale))[..n] == StoreAll(Drafts(lines[..n], scale));
      StoredAsSubmitted(lines, scale, n);
    }
  }

  lemma {:induction false} BalanceAfterPost(es: seq<Entry>, e: Entry, lines: seq<RawLine>, scale: Scale,
                                            account: int, branch: int)
    requires e.lines == StoreAll(Drafts(lines, scale))
    ensures Balance(es + [e], account, branch)
            == Balance(es, account, branch) + SubmittedNet(lines, scale, account, branch)
  {
    NetAsSubmitted(lines, scale, account, branch);
    BalanceOfLast(es, e, 0, account, branch);
  }

  lemma {:induction false} PostedEntries(b: Books, env: Env, r: PostRequest)
    ensures var (b', answer) := Post(b, env, r);
            if answer.Ok? && answer.value.Some? then
              && b'.entries == b.entries + [answer.value.value]
              && answer.value.value.lines == StoreAll(Drafts(r.lines, env.scale))
            else b'.entries == b.entries
  {
    PostOutcome(b, env, r);
    if !KeyUsed(b.entries, r.key) {
      PostVerdict(b, env, r);
    }
  }

  /** A post moves every balance by what was submitted for it; a refused or repeated one moves none. */
  lemma {:induction false} PostMovesBalance(b: Books, env: Env, r: PostRequest, account: int, branch: int)
    ensures var (b', answer) := Post(b, env, r);
            Balance(b'.entries, account, branch)
            == Balance(b.entries, account, branch)
               + if answer.Ok? && answer.value.Some? then SubmittedNet(r.lines, env.scale, account, branch) else 0
  {
    PostedEntries(b, env, r);
    var answer := Post(b, env, r).1;
    if answer.Ok? && answer.value.Some? {
      BalanceAfterPost(b.entries, answer.value.value, r.lines, env.scale, account, branch);
    }
  }

  lemma {:induction false} BalanceOfReplaced(es: seq<Entry>, at: nat, e: Entry, i: nat, account: int, branch: int)
    requires at < |es| && i <= |es|
    ensures BalanceFrom(es[at := e], i, account, branch)
            == BalanceFrom(es, i, account, branch)
               + if i <= at then Net(e.lines, account, branch) - Net(es[at].lines, account, branch) else 0
    decreases |es| - i
  {
    if i < |es| {
      BalanceOfReplaced(es, at, e, i + 1, account, branch);
    }
  }

  lemma {:induction false} BalanceAfterEdit(es: seq<Entry>, id: int, e: Entry, lines: seq<RawLine>, scale: Scale,
                                            account: int, branch: int)
    requires HasEntry(es, id) && e.lines == StoreAll(Drafts(lines, scale))
    ensures Balance(es[id - 1 := e], account, branch)
            == Balance(es, account, branch) + SubmittedNet(lines, scale, account, branch)
               - Net(es[id - 1].lines, account, branch)
  {
    NetAsSubmitted(lines, scale, account, branch);
    BalanceOfReplaced(es, id - 1, e, 0, account, branch);
  }

  lemma {:induction false} EditedEntries(b: Books, env: Env, id: int, date: Date, description: string,
                                         lines: seq<RawLine>)
    requires Inv(b)
    ensures var (b', answer) := Edit(b, env, id, date, description, lines);
            if answer.Ok? then
              && HasEntry(b.entries, id) && b'.entries == b.entries[id - 1 := answer.value]
              && answer.value.lines == StoreAll(Drafts(lines, env.scale))
            else b'.entries == b.entries
  {
    EditOutcome(b, env, id, date, description, lines);
    EnsureOpenOutcome(b, date, false);
  }

  /** An edit takes the old lines out of every balance and puts in what was submitted; a refused one moves none. */
  lemma {:induction false} EditMovesBalance(b: Books, env: Env, id: int, date: Date, description: string,
                                            lines: seq<RawLine>, account: int, branch: int)
    requires Reachable(b)
    ensures var (b', answer) := Edit(b, env, id, date, description, lines);
            && (answer.Ok? ==> HasEntry(b.entries, id))
            && Balance(b'.entries, account, branch)
               == Balance(b.entries, account, branch)
                  + if answer.Ok? then SubmittedNet(lines, env.scale, account, branch)
                                       - Net(b.entries[id - 1].lines, account, branch) else 0
  {
    ReachableOk(b);
    EditedEntries(b, env, id, date, description, lines);
    var answer := Edit(b, env, id, date, description, lines).1;
    if answer.Ok? {
      BalanceAfterEdit(b.entries, id, answer.value, lines, env.scale, account, branch);
    }
  }

  // ----- Sealed entries -----

  /** The entry is one end of a reversal. */
  predicate Sealed(es: seq<Entry>, i: nat)
    requires i < |es|
  {
    es[i].reverses.Some? || Reversed(es, i + 1)
  }

  lemma {:induction false} SealedShape(op: Op, es: seq<Entry>, es': seq<Entry>, i: nat)
    requires es' == es || Appended(op, es, es') || Edited(op, es, es')
    requires i < |es| && Sealed(es, i) && LinkOk(es, i)
    ensures i < |es'| && es'[i] == es[i] && Sealed(es', i)
  {
    if Reversed(es, i + 1) {
      var j :| 0 <= j < |es| && es[j].reverses == Some(i + 1);
      assert es'[j].reverses == Some(i + 1);
    }
  }

  lemma {:induction false} SealedStep(b: Books, op: Op, i: nat)
    requires Inv(b) && i < |b.entries| && Sealed(b.entries, i)
    ensures i < |Apply(b, op).entries| && Apply(b, op).entries[i] == b.entries[i]
    ensures Sealed(Apply(b, op).entries, i)
  {
    StepShape(b, op);
    assert LinkOk(b.entries, i);
    SealedShape(op, b.entries, Apply(b, op).entries, i);
  }

  /** Both ends of a reversal are immutable: no run changes either. */
  lemma {:induction false} SealedForever(b: Books, ops: seq<Op>, i: nat)
    requires Inv(b) && i < |b.entries| && Sealed(b.entries, i)
    ensures i < |Run(b, ops).entries| && Run(b, ops).entries[i] == b.entries[i]
    ensures Sealed(Run(b, ops).entries, i)
  {
    if ops != [] {
      var n := |ops| - 1;
      SealedForever(b, ops[..n], i);
      ReachableInv(b, ops[..n]);
      SealedStep(Run(b, ops[..n]), ops[n], i);
    }
  }

  lemma {:induction false} RefusesEdit(b: Books, env: Env, id: int, date: Date, description: string,
                                       lines: seq<RawLine>)
    requires HasEntry(b.entries, id)
    requires b.entries[id - 1].sourceType == REVERSAL || Reversed(b.entries, id)
    ensures Edit(b, env, id, date, description, lines)
            == (b, Err(if b.entries[id - 1].sourceType == REVERSAL then EntryIsReversal else EntryIsReversed))
  {
  }

  /** Neither end of a reversal can be edited, and the entry reversed cannot be reversed again. */
  lemma {:induction false} SealedRefuses(b: Books, i: nat, env: Env, editDate: Date, description: string,
                                         lines: seq<RawLine>, reason: Option<string>, date: Option<Date>, today: Date)
    requires Reachable(b) && i < |b.entries| && Sealed(b.entries, i)
    ensures Edit(b, env, i + 1, editDate, description, lines)
            == (b, Err(if b.entries[i].sourceType == REVERSAL then EntryIsReversal else EntryIsReversed))
    ensures Reversed(b.entries, i + 1) ==>
              Reverse(b, i + 1, reason, date, today) == (b, Err(AlreadyReversed(i + 1)))
  {
    ReachableOk(b);
    assert LinkOk(b.entries, i);
    RefusesEdit(b, env, i + 1, editDate, description, lines);
  }

  /** Both entries of a reversal, in books b and in what any run makes of them. */
  ghost predicate BothKept(b: Books, id: int, e: Entry, es: seq<Entry>)
  {
    && HasEntry(b.entries, id) && |b.entries| < |es|
    && es[id - 1] == b.entries[id - 1] && Sealed(es, id - 1)
    && es[|b.entries|] == e && Sealed(es, |b.entries|)
  }

  lemma {:induction false} EndsAreSealed(es: seq<Entry>, e: Entry, id: int)
    requires HasEntry(es, id) && e.reverses == Some(id)
    ensures Sealed(es + [e], id - 1) && Sealed(es + [e], |es|)
  {
    assert (es + [e])[|es|] == e;
  }

  lemma {:induction false} EndsStay(b: Books, b': Books, id: int, e: Entry, ops: seq<Op>)
    requires Inv(b') && HasEntry(b.entries, id)
    requires b'.entries == b.entries + [e] && e.reverses == Some(id)
    ensures BothKept(b, id, e, Run(b', ops).entries)
  {
    EndsAreSealed(b.entries, e, id);
    SealedForever(b', ops, id - 1);
    SealedForever(b', ops, |b.entries|);
  }

  /** A reversal seals both its ends for ever: whatever is done afterwards, neither is changed. */
  lemma {:induction false} ReversalSeals(b: Books, id: int, reason: Option<string>, date: Option<Date>, today: Date,
                                         ops: seq<Op>)
    requires Reachable(b) && Reverse(b, id, reason, date, today).1.Ok?
    ensures var (b', r) := Reverse(b, id, reason, date, today);
            BothKept(b, id, r.value, Run(b', ops).entries)
  {
    ReachableOk(b);
    ReversalRecorded(b, id, reason, date, today);
    ReverseKeeps(b, id, reason, date, today);
    var (b', r) := Reverse(b, id, reason, date, today);
    EndsStay(b, b', id, r.value, ops);
  }

  // ----- What is not netted -----

  /** The sub-ledger party that a line may name. */
  datatype Party = Customer(id: int) | Supplier(id: int) | Employee(id: int)

  predicate OfParty(l: Stored, p: Party)
  {
    match p
    case Customer(id) => l.customer == Some(id)
    case Supplier(id) => l.supplier == Some(id)
    case Employee(id) => l.employee == Some(id)
  }

  /** Debits less credits of one party in one account and branch. */
  function PartyNet(lines: seq<Stored>, account: int, branch: int, p: Party): int
  {
    if lines == [] then 0 else
      var l := lines[|lines| - 1];
      PartyNet(lines[..|lines| - 1], account, branch, p)
      + if l.account == account && l.branch == branch && OfParty(l, p) then l.debit - l.credit else 0
  }

  /** The position of a party that the entries from position i on make up. */
  function PositionFrom(es: seq<Entry>, i: nat, account: int, branch: int, p: Party): int
    requires i <= |es|
    decreases |es| - i
  {
    if i == |es| then 0
    else PartyNet(es[i].lines, account, branch, p) + PositionFrom(es, i + 1, account, branch, p)
  }

  function Position(es: seq<Entry>, account: int, branch: int, p: Party): int
  {
    PositionFrom(es, 0, account, branch, p)
  }

  lemma {:induction false} PositionOfLast(es: seq<Entry>, e: Entry, i: nat, account: int, branch: int, p: Party)
    requires i <= |es|
    ensures PositionFrom(es + [e], i, account, branch, p)
            == PositionFrom(es, i, account, branch, p) + PartyNet(e.lines, account, branch, p)
    decreases |es| - i
  {
    if i < |es| {
      PositionOfLast(es, e, i + 1, account, branch, p);
    } else {
      assert PositionFrom(es + [e], i + 1, account, branch, p) == 0;
    }
  }

  lemma {:induction false} MirrorNamesNoParty(lines: seq<Stored>, account: int, branch: int, p: Party)
    ensures PartyNet(Mirror(lines), account, branch, p) == 0
  {
    if lines != [] {
      var n := |lines| - 1;
      assert Mirror(lines)[..n] == Mirror(lines[..n]);
      MirrorNamesNoParty(lines[..n], account, branch, p);
    }
  }

  /** A reversal names no party, so it leaves the position of every party as it was. */
  lemma {:induction false} ReversalKeepsPositions(b: Books, id: int, reason: Option<string>, date: Option<Date>,
                                                  today: Date, account: int, branch: int, p: Party)
    ensures Position(Reverse(b, id, reason, date, today).0.entries, account, branch, p)
            == Position(b.entries, account, branch, p)
  {
    ReverseOutcome(b, id, reason, date, today);
    var answer := Reverse(b, id, reason, date, today).1;
    if answer.Ok? {
      MirrorNamesNoParty(b.entries[id - 1].lines, account, branch, p);
      PositionOfLast(b.entries, answer.value, 0, account, branch, p);
    }
  }

  /**
   Posting and then reversing restores the position of a party exactly when what was posted left none
   in that account and branch.
   */
  lemma {:induction false} PositionRestoredIff(b: Books, env: Env, r: PostRequest, reason: Option<string>,
                                               date: Option<Date>, today: Date,
                                               account: int, branch: int, p: Party)
    requires Post(b, env, r).1.Ok? && Post(b, env, r).1.value.Some?
    ensures Position(Reverse(Post(b, env, r).0, |b.entries| + 1, reason, date, today).0.entries, account, branch, p)
            == Position(b.entries, account, branch, p)
            <==> PartyNet(Post(b, env, r).1.value.value.lines, account, branch, p) == 0
  {
    PostOutcome(b, env, r);
    PositionOfLast(b.entries, Post(b, env, r).1.value.value, 0, account, branch, p);
    ReversalKeepsPositions(Post(b, env, r).0, |b.entries| + 1, reason, date, today, account, branch, p);
  }

  /** 1.00 owed by customer 7 against another account. */
  function Owed(): seq<RawLine> { [Simple(100, 0).(customer := Some(7)), Simple(0, 100)] }

  lemma {:induction false} OwedIsValid()
    ensures ValidateLines(Permissive(1), Owed(), true) == Ok(Drafts(Owed(), 1))
  {
    var a, b := Owed()[0], Owed()[1];
    AcceptedIff(Permissive(1), Owed(), true);
    assert Drafts(Owed(), 1) == [MakeDraft(a, 1, 0), MakeDraft(b, 1, 1)];
    TwoTotals(MakeDraft(a, 1, 0), MakeDraft(b, 1, 1));
    assert CurrencyComplete(a, Strip("USD")) && CurrencyComplete(b, Strip("USD"));
  }

  lemma {:induction false} OwedPosition()
    ensures PartyNet(StoreAll(Drafts(Owed(), 1)), 1, 1, Customer(7)) == 100
  {
    var ls := StoreAll(Drafts(Owed(), 1));
    assert ls[..1] == [ls[0]] && [ls[0]][..0] == [];
    assert PartyNet([], 1, 1, Customer(7)) == 0;
    assert PartyNet([ls[0]], 1, 1, Customer(7)) == 100;
  }

  function OwedRequest(day: Date): PostRequest { Transfer("k", day).(lines := Owed()) }

  lemma {:induction false} OwedPosts(day: Date)
    requires HasMonthBounds(day)
    ensures var (b, posted) := Post(EMPTY, Permissive(1), OwedRequest(day));
            && posted.Ok? && posted.value.Some?
            && posted.value.value.lines == StoreAll(Drafts(Owed(), 1))
            && b.entries == [posted.value.value]
            && posted.value.value.key == "k" && posted.value.value.reverses.None?
            && EnsureOpen(b, day, true).1.Ok?
  {
    OwedIsValid();
    PostVerdict(EMPTY, Permissive(1), OwedRequest(day));
    PostOutcome(EMPTY, Permissive(1), OwedRequest(day));
  }

  lemma {:induction false} OwedReverses(b: Books, e: Entry, day: Date)
    requires b.entries == [e] && e.key == "k" && e.reverses.None? && EnsureOpen(b, day, true).1.Ok?
    ensures Reverse(b, 1, None, None, day).1.Ok?
  {
    assert ReversalKey(1)[0] == 'j';
    assert !KeyUsed(b.entries, ReversalKey(1)) && !Reversed(b.entries, 1);
    ReverseSucceedsIff(b, 1, None, None, day);
  }

  lemma {:induction false} PositionOfOne(e: Entry, account: int, branch: int, p: Party)
    ensures Position([e], account, branch, p) == PartyNet(e.lines, account, branch, p)
  {
    assert PositionFrom([e], 1, account, branch, p) == 0;
  }

  lemma {:induction false} LeavesPosition(b: Books, e: Entry, day: Date)
    returns (b': Books, reversal: Result<Entry, Error>)
    requires b.entries == [e] && e.key == "k" && e.reverses.None? && EnsureOpen(b, day, true).1.Ok?
    requires e.lines == StoreAll(Drafts(Owed(), 1))
    ensures (b', reversal) == Reverse(b, 1, None, None, day) && reversal.Ok?
    ensures Position(b'.entries, 1, 1, Customer(7)) == 100
  {
    b', reversal := Reverse(b, 1, None, None, day).0, Reverse(b, 1, None, None, day).1;
    OwedReverses(b, e, day);
    ReversalKeepsPositions(b, 1, None, None, day, 1, 1, Customer(7));
    PositionOfOne(e, 1, 1, Customer(7));
    OwedPosition();
  }

  /** A post that leaves a customer's position in empty books, and the reversal that does not take it away. */
  lemma {:induction false} PositionNeedNotReturn(day: Date)
    returns (b: Books, posted: Result<Option<Entry>, Error>, b': Books, reversal: Result<Entry, Error>)
    requires HasMonthBounds(day)
    ensures (b, posted) == Post(EMPTY, Permissive(1), OwedRequest(day)) && posted.Ok? && posted.value.Some?
    ensures (b', reversal) == Reverse(b, 1, None, None, day) && reversal.Ok?
    ensures Position(EMPTY.entries, 1, 1, Customer(7)) == 0 && Position(b'.entries, 1, 1, Customer(7)) == 100
  {
    b, posted := Post(EMPTY, Permissive(1), OwedRequest(day)).0, Post(EMPTY, Permissive(1), OwedRequest(day)).1;
    OwedPosts(day);
    b', reversal := LeavesPosition(b, posted.value.value, day);
  }

  // ----- Branches -----

  /** Debits less credits of one branch. */
  function BranchNet(lines: seq<Draft>, branch: int): int
  {
    if lines == [] then 0 else
      var l := lines[|lines| - 1];
      BranchNet(lines[..|lines| - 1], branch) + if l.branch == branch then l.debit - l.credit else 0
  }

  /** The submitted lines of one branch. */
  function Only(lines: seq<RawLine>, branch: int): (r: seq<RawLine>)
    ensures forall l :: l in r <==> l in lines && l.branch == branch
  {
    if lines == [] then [] else
      var before, l := Only(lines[..|lines| - 1], branch), lines[|lines| - 1];
      assert lines == lines[..|lines| - 1] + [l];
      if l.branch == branch then before + [l] else before
  }

  lemma {:induction false} DraftsOfMore(lines: seq<RawLine>, l: RawLine, scale: Scale)
    ensures TotalDebit(Drafts(lines + [l], scale)) == TotalDebit(Drafts(lines, scale)) + Cents(Given(l.debit), scale)
    ensures TotalCredit(Drafts(lines + [l], scale)) == TotalCredit(Drafts(lines, scale)) + Cents(Given(l.credit), scale)
  {
    assert Drafts(lines + [l], scale)[..|lines|] == Drafts(lines, scale);
  }

  lemma {:induction false} BranchNetIsOwn(lines: seq<RawLine>, scale: Scale, branch: int)
    ensures BranchNet(Drafts(lines, scale), branch)
            == TotalDebit(Drafts(Only(lines, branch), scale)) - TotalCredit(Drafts(Only(lines, branch), scale))
  {
    if lines != [] {
      var n := |lines| - 1;
      BranchNetIsOwn(lines[..n], scale, branch);
      assert Drafts(lines, scale)[..n] == Drafts(lines[..n], scale);
      if lines[n].branch == branch {
        DraftsOfMore(Only(lines[..n], branch), lines[n], scale);
      }
    }
  }

  predicate BranchBalances(lines: seq<RawLine>, scale: Scale, branch: int)
  {
    BranchNet(Drafts(lines, scale), branch) == 0
  }

  /** Of an accepted batch, the lines of one branch could stand alone exactly when they balance. */
  lemma {:induction false} BranchStandsAloneIff(env: Env, lines: seq<RawLine>, strict: bool, branch: int)
    requires ValidateLines(env, lines, strict).Ok?
    ensures ValidateLines(env, Only(lines, branch), strict).Ok? <==>
              Only(lines, branch) != [] && BranchBalances(lines, env.scale, branch)
  {
    var own := Only(lines, branch);
    AcceptedIff(env, lines, strict);
    AcceptedIff(env, own, strict);
    BranchNetIsOwn(lines, env.scale, branch);
    forall k | 0 <= k < |own|
      ensures ChartTakes(env, own[k], strict) && AmountsInRange(own[k], env.scale)
      ensures CurrencyComplete(own[k], Strip(env.baseCode.value))
    {
      assert own[k] in lines;
    }
  }

  /** The branch, if the batch names it, could have been posted as an entry of its own. */
  predicate StandsAlone(env: Env, lines: seq<RawLine>, strict: bool, branch: int)
  {
    Only(lines, branch) != [] ==> ValidateLines(env, Only(lines, branch), strict).Ok?
  }

  lemma {:induction false} StandsAloneIffBalanced(env: Env, lines: seq<RawLine>, strict: bool, branch: int)
    requires ValidateLines(env, lines, strict).Ok?
    ensures StandsAlone(env, lines, strict, branch) <==> BranchBalances(lines, env.scale, branch)
  {
    BranchStandsAloneIff(env, lines, strict, branch);
    BranchNetIsOwn(lines, env.scale, branch);
  }

  /**
   The balance check is over the whole entry. Every branch of an accepted batch balances exactly when
   the lines of each branch it names would be accepted as an entry of their own.
   */
  lemma {:induction false} BranchesBalanceIff(env: Env, lines: seq<RawLine>, strict: bool)
    requires ValidateLines(env, lines, strict).Ok?
    ensures (forall branch :: BranchBalances(lines, env.scale, branch)) <==>
            (forall branch :: StandsAlone(env, lines, strict, branch))
  {
    if forall branch :: BranchBalances(lines, env.scale, branch) {
      forall branch
        ensures StandsAlone(env, lines, strict, branch)
      {
        StandsAloneIffBalanced(env, lines, strict, branch);
      }
    }
    if forall branch :: StandsAlone(env, lines, strict, branch) {
      forall branch
        ensures BranchBalances(lines, env.scale, branch)
      {
        StandsAloneIffBalanced(env, lines, strict, branch);
      }
    }
  }

  lemma {:induction false} TwoBranches(d: Draft, e: Draft, branch: int)
    ensures BranchNet([d, e], branch)
            == (if d.branch == branch then d.debit - d.credit else 0)
               + (if e.branch == branch then e.debit - e.credit else 0)
  {
    assert [d, e][..1] == [d] && [d][..0] == [];
    assert BranchNet([], branch) == 0;
    assert BranchNet([d], branch) == if d.branch == branch then d.debit - d.credit else 0;
  }

  /** An accepted batch whose two branches are each out of balance. */
  lemma {:induction false} BranchesNeedNotBalance()
    ensures var lines := [Simple(100, 0), Simple(0, 100).(branch := 2)];
            && ValidateLines(Permissive(1), lines, true) == Ok(Drafts(lines, 1))
            && BranchNet(Drafts(lines, 1), 1) == 100 && BranchNet(Drafts(lines, 1), 2) == -100
  {
    var a, b := Simple(100, 0), Simple(0, 100).(branch := 2);
    var d, e := MakeDraft(a, 1, 0), MakeDraft(b, 1, 1);
    AcceptedIff(Permissive(1), [a, b], true);
    assert Drafts([a, b], 1) == [d, e];
    TwoTotals(d, e);
    assert CurrencyComplete(a, Strip("USD")) && CurrencyComplete(b, Strip("USD"));
    TwoBranches(d, e, 1);
    TwoBranches(d, e, 2);
  }

  // ----- Balanced books -----

  function DebitsOf(es: seq<Entry>, i: nat, periodId: int): int
    requires i <= |es|
    decreases |es| - i
  {
    if i == |es| then 0
    else (if es[i].periodId == periodId then TotalDebit(es[i].lines) else 0) + DebitsOf(es, i + 1, periodId)
  }

  function CreditsOf(es: seq<Entry>, i: nat, periodId: int): int
    requires i <= |es|
    decreases |es| - i
  {
    if i == |es| then 0
    else (if es[i].periodId == periodId then TotalCredit(es[i].lines) else 0) + CreditsOf(es, i + 1, periodId)
  }

  function AllDebits(es: seq<Entry>, i: nat): int
    requires i <= |es|
    decreases |es| - i
  {
    if i == |es| then 0 else TotalDebit(es[i].lines) + AllDebits(es, i + 1)
  }

  function AllCredits(es: seq<Entry>, i: nat): int
    requires i <= |es|
    decreases |es| - i
  {
    if i == |es| then 0 else TotalCredit(es[i].lines) + AllCredits(es, i + 1)
  }

  ghost predicate EachBalances(es: seq<Entry>)
  {
    forall i :: 0 <= i < |es| ==> TotalDebit(es[i].lines) == TotalCredit(es[i].lines)
  }

  lemma {:induction false} SuffixBalanced(es: seq<Entry>, i: nat, periodId: int)
    requires EachBalances(es) && i <= |es|
    ensures DebitsOf(es, i, periodId) == CreditsOf(es, i, periodId)
    ensures AllDebits(es, i) == AllCredits(es, i)
    decreases |es| - i
  {
    if i < |es| {
      SuffixBalanced(es, i + 1, periodId);
    }
  }

  /** In every reachable state debits equal credits in each entry, each period and the whole ledger. */
  lemma {:induction false} BooksBalance(b: Books, periodId: int)
    requires Reachable(b)
    ensures EachBalances(b.entries)
    ensures forall i, k :: 0 <= i < |b.entries| && 0 <= k < |b.entries[i].lines| ==> OneSided(b.entries[i].lines[k])
    ensures DebitsOf(b.entries, 0, periodId) == CreditsOf(b.entries, 0, periodId)
    ensures AllDebits(b.entries, 0) == AllCredits(b.entries, 0)
  {
    ReachableOk(b);
    forall i | 0 <= i < |b.entries|
      ensures TotalDebit(b.entries[i].lines) == TotalCredit(b.entries[i].lines)
      ensures forall k :: 0 <= k < |b.entries[i].lines| ==> OneSided(b.entries[i].lines[k])
    {
      assert WellFormed(b.entries[i].lines);
    }
    SuffixBalanced(b.entries, 0, periodId);
  }
}
