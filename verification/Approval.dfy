/** Who may get past the approval step: console rows, the requests read from
    them, and the policy each request is checked against. */
module Approval {
  import opened Base
  import opened Text

  datatype Action = Upgrade | Rollback | Restart

  datatype Policy = OperatorApproval | ConsoleApproval | TwoPersonApproval

  datatype ConsoleRule = TwoPerson | Single

  datatype Request = Request(action: Action, tag: string, requestedBy: string, approvals: seq<string>,
                             allowDestructive: bool, allowDowngrade: bool, rule: ConsoleRule, id: string)

  /** `ApprovalPolicy.check` */
  predicate Approved(policy: Policy, requestedBy: string, approvals: seq<string>) {
    match policy
    case OperatorApproval => approvals != []
    case ConsoleApproval => approvals != []
    case TwoPersonApproval => Others(requestedBy, approvals) != []
  }

  function Others(requestedBy: string, approvals: seq<string>): seq<string> {
    if approvals == [] then []
    else (if approvals[0] != requestedBy then [approvals[0]] else []) + Others(requestedBy, approvals[1..])
  }

  lemma {:induction false} OthersAreOthers(requestedBy: string, approvals: seq<string>)
    ensures Others(requestedBy, approvals) != [] <==> exists a :: a in approvals && a != requestedBy
  {
    if approvals != [] {
      OthersAreOthers(requestedBy, approvals[1..]);
      assert approvals[0] in approvals && forall a :: a in approvals <==> a == approvals[0] || a in approvals[1..];
    }
  }

  /** A tag accepted by `^[A-Za-z0-9_][A-Za-z0-9._-]{0,127}$`, final newline included. */
  predicate ValidTag(tag: string) {
    PlainTag(tag) || (tag != "" && tag[|tag| - 1] == '\n' && PlainTag(tag[..|tag| - 1]))
  }

  predicate IsTagChar(c: char) {
    'A' <= c <= 'Z' || 'a' <= c <= 'z' || IsDigit(c) || c == '_' || c == '.' || c == '-'
  }

  predicate PlainTag(tag: string) {
    1 <= |tag| <= 128 && (forall i :: 0 <= i < |tag| ==> IsTagChar(tag[i])) && tag[0] != '.' && tag[0] != '-'
  }

  // ---- the console's rows ------------------------------------------------

  /** One row of the console's answer; every field is whatever the console sent. */
  datatype Row = Row(id: string, action: string, tag: string, requestedBy: string, approvals: seq<string>,
                     allowDestructive: bool, policy: string)

  function ActionOf(s: string): Option<Action> {
    if s == "upgrade" then Some(Upgrade) else if s == "rollback" then Some(Rollback)
    else if s == "restart" then Some(Restart) else None
  }

  function Named(approvals: seq<string>): seq<string> {
    if approvals == [] then [] else (if approvals[0] != "" then [approvals[0]] else []) + Named(approvals[1..])
  }

  /** `HttpRequestSource._parse` */
  function ParseRow(row: Row): Option<Request> {
    var action := ActionOf(row.action);
    if !(AllDigits(row.id) && |row.id| <= 18) || action.None? then None
    else if action.value == Upgrade && !ValidTag(row.tag) then None
    else Some(Request(action.value, if action.value == Upgrade then row.tag else "",
                      if row.requestedBy != "" then row.requestedBy else "unknown",
                      Named(row.approvals), row.allowDestructive && action.value == Upgrade, false,
                      if row.policy == "single" then Single else TwoPerson, row.id))
  }

  /** Exactly which rows are requests, and what each request asks for. */
  lemma RowReads(row: Row)
    ensures ParseRow(row).Some? <==>
              && 1 <= |row.id| <= 18 && (forall i :: 0 <= i < |row.id| ==> '0' <= row.id[i] <= '9')
              && (row.action == "rollback" || row.action == "restart" || (row.action == "upgrade" && ValidTag(row.tag)))
    ensures ParseRow(row).Some? ==>
              var r := ParseRow(row).value;
              && (r.action == Upgrade <==> row.action == "upgrade")
              && (r.action == Restart <==> row.action == "restart")
              && r.tag == (if row.action == "upgrade" then row.tag else "") && r.id == row.id
              && r.requestedBy == (if row.requestedBy == "" then "unknown" else row.requestedBy)
              && (r.rule == Single <==> row.policy == "single")
              && (r.allowDestructive <==> row.allowDestructive && row.action == "upgrade") && !r.allowDowngrade
  {
  }

  /** `approval_policy_for`: `floor` is the host's `require_two_person_approval`. */
  function PolicyFor(floor: bool, request: Request): Policy {
    if request.action == Restart then ConsoleApproval
    else if floor || request.rule != Single then TwoPersonApproval
    else ConsoleApproval
  }

  lemma {:induction false} NamedKeepsNames(approvals: seq<string>, a: string)
    ensures a in Named(approvals) <==> a in approvals && a != ""
  {
    if approvals != [] {
      NamedKeepsNames(approvals[1..], a);
      assert approvals == [approvals[0]] + approvals[1..];
    }
  }

  /** Someone approved, and a second person where one is needed. */
  predicate RowApproved(floor: bool, row: Row, requestedBy: string) {
    exists a :: a in row.approvals && ApprovalCounts(floor, row, requestedBy, a)
  }

  predicate ApprovalCounts(floor: bool, row: Row, requestedBy: string, a: string) {
    a != "" && (a != requestedBy || row.action == "restart" || (row.policy == "single" && !floor))
  }

  /** Exactly which console rows pass the approval step, in the row's own
      terms: a second person for upgrades and rollbacks, unless the row says
      `single` and the host sets no floor. */
  lemma ConsoleRowPasses(floor: bool, row: Row)
    requires ParseRow(row).Some?
    ensures var r := ParseRow(row).value;
            Approved(PolicyFor(floor, r), r.requestedBy, r.approvals) <==>
            RowApproved(floor, row, r.requestedBy)
    ensures !ParseRow(row).value.allowDowngrade
    ensures ParseRow(row).value.allowDestructive ==> row.action == "upgrade"
  {
    var r := ParseRow(row).value;
    OthersAreOthers(r.requestedBy, r.approvals);
    forall a ensures a in r.approvals <==> a in row.approvals && a != "" {
      NamedKeepsNames(row.approvals, a);
    }
    if r.approvals != [] {
      assert r.approvals[0] in r.approvals && r.approvals[0] in row.approvals;
    }
  }
}
