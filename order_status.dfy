/** The order lifecycle: the six statuses of the order schema, the
    successors the owner dashboard offers as buttons, and the customer
    view's tracking panel and feedback form, which are gated on status. */
module OrderStatus {
  import opened Wrappers

  datatype Status = Pending | Accepted | Preparing | OutForDelivery | Delivered | Cancelled

  /** The wire name of each status, as the schema's enum lists it. */
  function Name(s: Status): string {
    match s
    case Pending => "pending"
    case Accepted => "accepted"
    case Preparing => "preparing"
    case OutForDelivery => "out-for-delivery"
    case Delivered => "delivered"
    case Cancelled => "cancelled"
  }

  /** Reading a wire name back; a string outside the enum is not a status. */
  function Parse(name: string): (r: Option<Status>)
    ensures r.Some? ==> Name(r.value) == name
  {
    if name == "pending" then Some(Pending)
    else if name == "accepted" then Some(Accepted)
    else if name == "preparing" then Some(Preparing)
    else if name == "out-for-delivery" then Some(OutForDelivery)
    else if name == "delivered" then Some(Delivered)
    else if name == "cancelled" then Some(Cancelled)
    else None
  }

  lemma ParseName(s: Status)
    ensures Parse(Name(s)) == Some(s)
  {
  }

  /** The happy path, in order. */
  const Pipeline: seq<Status> := [Pending, Accepted, Preparing, OutForDelivery, Delivered]

  /** The transition table: one step along the pipeline, or the
      pending -> cancelled side-exit. */
  predicate IsEdge(s: Status, t: Status) {
    (exists i :: 0 <= i < |Pipeline| - 1 && Pipeline[i] == s && Pipeline[i + 1] == t)
    || (s == Pending && t == Cancelled)
  }

  /** The five edges of the table, written out. */
  lemma EdgeList()
    ensures forall s, t :: IsEdge(s, t) <==>
      (s == Pending && (t == Accepted || t == Cancelled)) || (s == Accepted && t == Preparing) ||
      (s == Preparing && t == OutForDelivery) || (s == OutForDelivery && t == Delivered)
  {
    assert Pipeline[0] == Pending && Pipeline[1] == Accepted && Pipeline[2] == Preparing;
    assert Pipeline[3] == OutForDelivery && Pipeline[4] == Delivered;
  }

  predicate IsTerminal(s: Status) {
    s == Delivered || s == Cancelled
  }

  /** The buttons the owner dashboard shows for an order in status `s`,
      as the status the button sends, left to right. Every offered button
      is an edge of the transition table, and every edge is offered. */
  function NextOffered(s: Status): (r: seq<Status>)
    ensures forall t :: t in r <==> IsEdge(s, t)
  {
    EdgeList();
    match s
    case Pending => [Accepted, Cancelled]
    case Accepted => [Preparing]
    case Preparing => [OutForDelivery]
    case OutForDelivery => [Delivered]
    case Delivered => []
    case Cancelled => []
  }

  /** Only the two terminal statuses offer no button. */
  lemma NothingOfferedIffTerminal(s: Status)
    ensures NextOffered(s) == [] <==> IsTerminal(s)
  {
  }

  /** Position along the pipeline: pending is 0, delivered is 4. A
      cancelled order never got past pending, so it is 0 too. */
  function Progress(s: Status): (r: nat)
    ensures r < |Pipeline|
    ensures s != Cancelled ==> Pipeline[r] == s
  {
    match s
    case Pending => 0
    case Accepted => 1
    case Preparing => 2
    case OutForDelivery => 3
    case Delivered => 4
    case Cancelled => 0
  }

  /** Each offered button moves an order exactly one step forward along
      the pipeline, unless it cancels a pending order. */
  lemma OfferedStepsByOne(s: Status, t: Status)
    requires t in NextOffered(s)
    ensures t == Cancelled ==> s == Pending
    ensures t != Cancelled ==> Progress(t) == Progress(s) + 1
  {
  }

  /** The customer's tracking panel is shown for every status except
      pending and cancelled. */
  function TrackingShown(s: Status): (r: bool)
    ensures r <==> s in Pipeline[1..]
  {
    s != Pending && s != Cancelled
  }

  /** The four tracking steps (Accepted, Preparing, On the Way, Delivered)
      and whether each is highlighted, from the status lists the panel tests.
      The highlighted steps are a prefix whose length is the status's
      position along the pipeline. */
  function ActiveSteps(s: Status): (r: seq<bool>)
    ensures |r| == 4
    ensures forall i :: 0 <= i < 4 ==> (r[i] <==> i < Progress(s))
  {
    [ s in [Accepted, Preparing, OutForDelivery, Delivered],
      s in [Preparing, OutForDelivery, Delivered],
      s in [OutForDelivery, Delivered],
      s == Delivered ]
  }

  /** The feedback form is offered for a delivered order without feedback. */
  function FeedbackOffered(s: Status, hasFeedback: bool): (r: bool)
    ensures r <==> IsTerminal(s) && TrackingShown(s) && !hasFeedback
    ensures r ==> forall i :: 0 <= i < 4 ==> ActiveSteps(s)[i]
  {
    s == Delivered && !hasFeedback
  }

  /** A history of statuses in which every change was made through an
      owner button. */
  predicate OfferedRun(run: seq<Status>) {
    |run| > 0 && run[0] == Pending &&
    forall i :: 0 < i < |run| ==> run[i] in NextOffered(run[i - 1])
  }

  /** An order moved only through the dashboard's buttons visits the
      pipeline in order without skipping a status, or is cancelled right
      after pending and then stops; it never has more than five statuses,
    and every change other than a cancel advances exactly one step. */
  lemma {:induction false} OfferedRunFollowsPipeline(run: seq<Status>)
    requires OfferedRun(run)
    ensures |run| <= |Pipeline|
    ensures forall i :: 0 <= i < |run| ==> run[i] == Pipeline[i] || (i == 1 && run[i] == Cancelled)
    ensures forall i :: 0 <= i < |run| && run[i] == Cancelled ==> i == 1 && |run| == 2
    ensures forall i :: 0 < i < |run| && run[i] != Cancelled ==> Progress(run[i]) == Progress(run[i - 1]) + 1
  {
    if |run| > 1 {
      var prefix := run[..|run| - 1];
      assert OfferedRun(prefix) by {
        forall i | 0 < i < |prefix| ensures prefix[i] in NextOffered(prefix[i - 1]) {
          assert prefix[i] == run[i] && prefix[i - 1] == run[i - 1];
        }
      }
      OfferedRunFollowsPipeline(prefix);
      var k := |run| - 1;
      assert run[k] in NextOffered(run[k - 1]);
      assert run[k - 1] == prefix[k - 1];
      NextAlongPipeline(k, run[k - 1], run[k]);
      forall i | 0 <= i < |run| ensures run[i] == Pipeline[i] || (i == 1 && run[i] == Cancelled) {
        if i < k { assert run[i] == prefix[i]; }
      }
      assert run[k - 1] != Cancelled;
      forall i | 0 < i < |run| && run[i] != Cancelled
        ensures Progress(run[i]) == Progress(run[i - 1]) + 1
      {
        if i < k { assert run[i] == prefix[i] && run[i - 1] == prefix[i - 1]; }
      }
    }
  }

  /** One button pressed on the status at position k - 1 of a history that
      follows the pipeline gives the status at position k. */
  lemma NextAlongPipeline(k: nat, s: Status, t: Status)
    requires 0 < k <= |Pipeline|
    requires s == Pipeline[k - 1] || (k == 2 && s == Cancelled)
    requires t in NextOffered(s)
    ensures s != Cancelled && k < |Pipeline|
    ensures t == Pipeline[k] || (k == 1 && t == Cancelled)
    ensures t == Cancelled ==> k == 1
    ensures t != Cancelled ==> Progress(t) == Progress(s) + 1
  {
    OfferedStepsByOne(s, t);
  }

  /** Consequently a delivered order reached through the buttons went
      through every pipeline status, in order. */
  lemma DeliveredRunIsWholePipeline(run: seq<Status>)
    requires OfferedRun(run) && run[|run| - 1] == Delivered
    ensures run == Pipeline
  {
    OfferedRunFollowsPipeline(run);
    var k := |run| - 1;
    assert run[k] == Pipeline[k];
    assert k == 4;
    assert run[2] in NextOffered(run[1]);
  }
}
