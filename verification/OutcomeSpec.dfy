/** What a caller may rely on: each call is pending, then answered or timed out, once. */
module OutcomeSpec {
  import opened SessionProtocol

  datatype Outcome = Pending | Answered(reply: Message) | TimedOut

  type Table = map<CallId, Outcome>

  predicate Starts(a: Table, b: Table, c: CallId) {
    c !in a && b == a[c := Pending]
  }

  predicate Settles(a: Table, b: Table, c: CallId) {
    c in a && a[c] == Pending && c in b && b[c] != Pending && b == a[c := b[c]]
  }

  ghost predicate SpecStep(a: Table, b: Table) {
    a == b || exists c: CallId :: Starts(a, b, c) || Settles(a, b, c)
  }

  ghost predicate SpecRun(run: seq<Table>) {
    forall i :: 0 <= i < |run| - 1 ==> SpecStep(run[i], run[i + 1])
  }

  /** In the specification an outcome, once there, never changes. */
  lemma {:induction false} SettledStays(run: seq<Table>, i: nat, j: nat, c: CallId)
    requires SpecRun(run) && i <= j < |run| && c in run[i] && run[i][c] != Pending
    ensures c in run[j] && run[j][c] == run[i][c]
  {
    if i == j {
    } else {
      SettledStays(run, i, j - 1, c);
      assert SpecStep(run[j - 1], run[j - 1 + 1]);
    }
  }
}
