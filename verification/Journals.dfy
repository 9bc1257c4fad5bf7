/** Proposed journals and the checks every one of them must pass. */
module Journals {
  import opened Names

  datatype JournalLine = JournalLine(account: Name, debit: Money, credit: Money, evidence: seq<Name>)

  /** A proposal; its narration is made of the control code and the bank transaction. */
  datatype JournalProposal = JournalProposal(subject: Name, date: int, lines: seq<JournalLine>)

  predicate ValidLine(l: JournalLine) {
    && l.debit >= 0.0 && l.credit >= 0.0
    && (l.debit != 0.0) != (l.credit != 0.0)
    && l.evidence != []
  }

  function DebitTotal(lines: seq<JournalLine>): Money {
    if lines == [] then 0.0 else lines[0].debit + DebitTotal(lines[1..])
  }

  function CreditTotal(lines: seq<JournalLine>): Money {
    if lines == [] then 0.0 else lines[0].credit + CreditTotal(lines[1..])
  }

  predicate ValidProposal(p: JournalProposal) {
    && |p.lines| >= 2
    && DebitTotal(p.lines) == CreditTotal(p.lines)
    && forall l :: l in p.lines ==> ValidLine(l)
  }

  /** What posting the lines adds to the cash accounts, an outflow counting as positive. */
  function CashEffect(lines: seq<JournalLine>, cashCodes: set<Name>): Money {
    if lines == [] then 0.0
    else (if lines[0].account in cashCodes then lines[0].credit - lines[0].debit else 0.0) + CashEffect(lines[1..], cashCodes)
  }

  /** A line is valid exactly if it has evidence, one positive side, and nothing on the other. */
  lemma ValidLineExactlyWhen(l: JournalLine)
    ensures ValidLine(l) <==> l.evidence != [] && ((l.debit > 0.0 && l.credit == 0.0) || (l.credit > 0.0 && l.debit == 0.0))
  {
  }

  ghost function Net(lines: seq<JournalLine>): Money {
    if lines == [] then 0.0 else lines[0].debit - lines[0].credit + Net(lines[1..])
  }

  lemma {:induction false} NetIsDifference(lines: seq<JournalLine>)
    ensures Net(lines) == DebitTotal(lines) - CreditTotal(lines)
  {
    if lines != [] { NetIsDifference(lines[1..]); }
  }

  /** A proposal is valid exactly if it has two lines or more, each valid, that net to nothing. */
  lemma ValidProposalExactlyWhen(p: JournalProposal)
    ensures ValidProposal(p) <==> |p.lines| > 1 && (forall i :: 0 <= i < |p.lines| ==> ValidLine(p.lines[i])) && Net(p.lines) == 0.0
  {
    hide ValidLine;
    NetIsDifference(p.lines);
  }
}
