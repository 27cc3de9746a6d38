/** What the server answers to a command and which message it queues, case by case. */
module ServiceOutcomes {
  import opened Wrappers
  import opened Calendar
  import opened Currency
  import opened BankTypes
  import opened Ledger
  import opened Interest
  import opened BankValidity
  import opened Posting
  import opened Settlement
  import opened Recurring
  import opened AccountLifecycle
  import opened ManualTransactions
  import opened Transfer
  import opened BankCommands
  import opened CommandProofs
  import opened BankDomain
  import opened DomainProofs
  import opened BankService
  import opened ServiceProofs
  import opened CommandTerms
  import opened EntryOutcomes
  import opened StandingOutcomes
  import opened CreationOutcomes
  import opened OperationLog
  import opened OperationLogProofs
  import opened OperationRuns
  import opened ServerRuns
  import Money

  // ---------------------------------------------------------------- amounts of a refusal

  predicate HasAmounts(out: Outcome)
    requires out.Refused?
  {
    && (out.available.Some? ==> 0 <= out.available.value <= MAX_SAFE)
    && (out.required.Some? ==> 0 <= out.required.value <= MAX_SAFE)
  }

  lemma {:induction false} RecordAmounts(s: BankState, input: ManualInput, now: Instant)
    requires Sound(s, now) && RecordTransaction(s, input, now).Refused?
    ensures HasAmounts(RecordTransaction(s, input, now))
  {
    hide Sound, AppendRow, BalanceOf, WithinCommandUsdLimit, ManualRow, IsAllowedEffectiveDate, Money.ParseDecimalToMinor, FindAccount;
    BalanceIsNatural(s, input.accountId, now);
  }

  lemma {:induction false} CreationAmounts(s: BankState, input: RecurringInput, now: Instant)
    requires Sound(s, now) && CreateRecurringRule(s, input, now).Refused?
    ensures HasAmounts(CreateRecurringRule(s, input, now))
  {
    hide Sound, CreateRecurringRule, Backfill, CreatesAs, BackfillsAs, IsNewRuleId;
    CreationOutcome(s, input, now);
    var out := CreateRecurringRule(s, input, now);
    if out.available.Some? || out.required.Some? {
      assert IsNewRuleId(input.ruleId) && NoRule(s, input.ruleId) && !NoAccount(s, input.accountId);
      var i :| 0 <= i < |s.accounts| && s.accounts[i].id == input.accountId;
      assert IsAccount(s, input.accountId, i);
      assert CreatesAs(s, input, i, now, out);
      CreatedAmounts(s, input, i, now, out);
    }
  }

  lemma {:induction false} CreatedAmounts(s: BankState, input: RecurringInput, i: nat, now: Instant, out: Outcome)
    requires Sound(s, now) && i < |s.accounts| && CreatesAs(s, input, i, now, out) && out.Refused?
    ensures HasAmounts(out)
  {
    hide Sound, BackfillsAs, RuleOf, FirstDate, DueThrough, Money.ParseAmountInput, IsAffordable, IsRecent, Before;
    var a := s.accounts[i];
    var parsed := Money.ParseAmountInput(input.amountInput, a.currency, input.locale);
    if parsed.Some? && IsMonthAndAnchor(input) && input.counterparty.Some? && input.note.Some? && input.category.Some? {
      var schedule := DueThrough(FirstDate(input), input.anchorDay, now.date, 120);
      if schedule.Some? {
        BackfillAmounts(s, RuleOf(input, parsed.value, schedule.value.next, now), schedule.value.due, a.currency, now, out);
      }
    }
  }

  lemma {:induction false} BackfillAmounts(s: BankState, r: RecurringRule, due: seq<Date>, c: Currency, now: Instant, out: Outcome)
    requires Sound(s, now) && out.Refused?
    ensures BackfillsAs(s, r, due, c, now, out) ==> HasAmounts(out)
  {
    hide Sound, BalanceOf, IsAffordable, AddsRule;
    BalanceIsNatural(s, r.accountId, now);
  }

  lemma {:induction false} OtherAmounts(s: BankState, c: BankCommand, now: Instant)
    requires ApplyBankCommand(s, c, now).Refused? && !c.Record? && !c.CreateRecurring?
    ensures ApplyBankCommand(s, c, now).available.None? && ApplyBankCommand(s, c, now).required.None?
  {
    hide AppendRow, BalanceOf, FindAccount, FindRule, FindCard, FindContact, SettleAccount, SettleAll, SettleBoth, PostLegs, Converted,
      WithinCommandUsdLimit, IsClientTransferId, MaterializeRecurring, Shut, Reopen, CountOpen, IsTaken, HasOpenChecking,
      HasOtherOpenChecking, Money.ParseBalanceInput, CorrectionRow, IsAccountId, IsAccountNumber, Remember, Touched, WithStatus, WithCard;
    match c
    case MakeTransfer(q) =>
    case Adjust(input) =>
    case _ =>
  }

  lemma {:induction false} RefusalAmounts(s: BankState, c: BankCommand, now: Instant)
    requires Sound(s, now) && ApplyBankCommand(s, c, now).Refused?
    ensures HasAmounts(ApplyBankCommand(s, c, now))
  {
    hide Sound, RecordTransaction, CreateRecurringRule, Pause, Resume, AddAccount, AdjustBalance, CloseAccount, RestoreAccount,
      TransferWithinLimit, FreezeCard, SettleInterest;
    match c
    case Record(input) => RecordAmounts(s, input, now);
    case CreateRecurring(input) => CreationAmounts(s, input, now);
    case _ => OtherAmounts(s, c, now);
  }

  // ---------------------------------------------------------------- the answer to a command

  /** On an accepted state a command is applied to the materialised state. A refusal is answered with its reason and
      amounts and keeps the state found; an acceptable success is answered with the new state and with the
      warnings of both passes, each rule and reason once. */
  lemma {:induction false} TransitionOutcome(s: BankState, c: BankCommand, now: Instant)
    requires Valid(s, now)
    ensures MaterializeBankState(s, now).Some?
    ensures var due := MaterializeBankState(s, now).value;
            match ApplyBankCommand(due.state, c, now)
            case Refused(error, available, required) =>
              CommandTransition(s, c, now)
              == Some(Transition(s, StoredOutcome(false, [], None, None, Some(Failure(error, available, required)))))
            case Done(state, applied, warnings, incoming, backfilled) =>
              CommandTransition(s, c, now)
              == if IsAcceptable(due.state, c)
                 then Some(Transition(state, StoredOutcome(applied, Merged(due.warnings + warnings, {}), incoming, backfilled, None)))
                 else None
  {
    hide Valid, MaterializeBankState, ApplyBankCommand, IsAcceptable, Merged, Sound, IsStorable;
    var due := TransitionParts(s, c, now);
    TransitionThrows(s, c, now);
    if ApplyBankCommand(due.state, c, now).Refused? {
      ValidIsSound(due.state, now);
      RefusalAmounts(due.state, c, now);
    }
  }

  /** Interest comes before the rules: when it fits, the rules are caught up on the settled state with room up to
      the limit of rows. */
  lemma {:induction false} InterestComesFirst(s: BankState, now: Instant)
    requires SettleAll(s, now).Some? && |SettleAll(s, now).value.transactions| <= 5_000
    ensures MaterializeBankState(s, now) == Some(MaterializeRecurring(SettleAll(s, now).value, now, 5_000))
  {
    hide SettleAll, MaterializeRecurring;
  }

  // ---------------------------------------------------------------- the message of a served command

  /** The message for an answer: on Telegram the answer itself, elsewhere its warnings if it has any. */
  function AnswerMessage(source: Source, outcome: StoredOutcome): Option<Message> {
    if source == FromTelegram then Some(OperationResult(outcome))
    else if |outcome.warnings| > 0 then Some(MaterializationWarning(outcome.warnings))
    else None
  }

  /** A committed command from Telegram always queues its answer for the user's chat, any other one queues its
      warnings or nothing. */
  lemma {:induction false} ServedCommandQueues(db: BankDb, limit: nat, user: string, source: Source, operationId: string, hash: string,
                                               c: BankCommand, now: Instant)
    requires DbSound(db)
    requires var answer := Execute(db, limit, CommandRequest(user, source, operationId, hash), CommandChange(c, now, source)).1;
             answer.Answered? && !answer.replayed
    ensures var (after, answer) := Execute(db, limit, CommandRequest(user, source, operationId, hash), CommandChange(c, now, source));
            match AnswerMessage(source, answer.outcome)
            case Some(message) => QueuesOne(db.outbox, after.outbox, answer.operationId, user, user, message)
            case None => after.outbox == db.outbox
  {
    hide DbSound, Execute, CommandTransition, QueuesOne;
    ExecuteWrites(db, limit, CommandRequest(user, source, operationId, hash), CommandChange(c, now, source));
  }

  /** A read queues its warnings for the user's chat if it has any, under the identifier of its revision. */
  lemma {:induction false} ReadQueues(db: BankDb, user: string, hash: string, now: Instant)
    requires DbSound(db) && Mutate(db, user, hash, BootstrapChange(now)).1.Mutated?
    ensures user in db.states && BootstrapTransition(db.states[user].state, now).Some?
    ensures var (after, mutation) := Mutate(db, user, hash, BootstrapChange(now));
            var warnings := BootstrapTransition(db.states[user].state, now).value.warnings;
            if warnings == [] then after.outbox == db.outbox && after.operations == db.operations
            else
              && |after.operations| == |db.operations| + 1
              && QueuesOne(db.outbox, after.outbox, after.operations[|db.operations|].id, user, user, MaterializationWarning(warnings))
  {
    hide DbSound, Mutate, BootstrapTransition, QueuesOne, AddsOne;
    MutateWrites(db, user, hash, BootstrapChange(now));
  }
}
