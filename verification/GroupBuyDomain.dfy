/** The group-buy entity, its validation and the defaults the service fills in. */
module GroupBuyDomain {
  import opened Wrappers

  type GroupBuyId = nat
  type UserId = nat

  const SECOND := 1_000_000_000
  const HOUR := 3600 * SECOND
  const DEFAULT_THRESHOLD := 5
  const DEFAULT_DEADLINE := 24 * HOUR

  datatype Status = Open | Met | Expired | Canceled | Finalized | Failed {
    predicate AcceptsJoins() { Open? || Met? }
  }

  datatype GroupBuy = GroupBuy(
    title: string, threshold: int, capacity: int, remaining: int,
    startsAt: int, endsAt: int, deadline: int, status: Status, version: int)
  {
    function Confirmed(): int { capacity - remaining }

    predicate ThresholdMet() { Confirmed() >= threshold }
  }

  datatype Invalid =
    | TitleRequired | ThresholdNotPositive | CapacityNotPositive | ThresholdAboveCapacity
    | EndsBeforeStart | DeadlineInPast | DeadlineAfterStart

  function Validate(g: GroupBuy, now: int): (r: Option<Invalid>) {
    if g.title == "" then Some(TitleRequired)
    else if g.threshold <= 0 then Some(ThresholdNotPositive)
    else if g.capacity <= 0 then Some(CapacityNotPositive)
    else if g.threshold > g.capacity then Some(ThresholdAboveCapacity)
    else if !(g.endsAt > g.startsAt) then Some(EndsBeforeStart)
    else if !(g.deadline > now) then Some(DeadlineInPast)
    else if g.deadline > g.startsAt then Some(DeadlineAfterStart)
    else None
  }

  datatype CreateInput = CreateInput(
    title: string, threshold: int, capacity: int,
    startsAt: int, endsAt: int, deadline: Option<int>)

  function FillDefaults(input: CreateInput, now: int): GroupBuy {
    var threshold := if input.threshold <= 0 then DEFAULT_THRESHOLD else input.threshold;
    var deadline :=
      match input.deadline
      case Some(d) => d
      case None => if now + DEFAULT_DEADLINE > input.startsAt then input.startsAt else now + DEFAULT_DEADLINE;
    GroupBuy(input.title, threshold, input.capacity, input.capacity,
             input.startsAt, input.endsAt, deadline, Open, 0)
  }

  /** A new campaign: defaults are filled in, then the row is validated. */
  function NewGroupBuy(input: CreateInput, now: int): (r: Result<GroupBuy, Invalid>) {
    var g := FillDefaults(input, now);
    match Validate(g, now)
    case None => Ok(g)
    case Some(e) => Err(e)
  }

  /** What holds of a campaign from its creation on. */
  ghost predicate WellFormed(g: GroupBuy) {
    1 <= g.threshold <= g.capacity && g.deadline <= g.startsAt < g.endsAt
  }

  /** What a new campaign is refused for: the first rule it breaks once defaults are filled in. */
  lemma {:induction false} RefusedExactly(input: CreateInput, now: int)
    ensures var r := NewGroupBuy(input, now);
            var threshold := if input.threshold <= 0 then 5 else input.threshold;
            var titled, sized := input.title != "", input.capacity > 0;
            var timed := titled && sized && threshold <= input.capacity && input.startsAt < input.endsAt;
            && (r == Err(TitleRequired) <==> !titled)
            && (r == Err(CapacityNotPositive) <==> titled && !sized)
            && (r == Err(ThresholdAboveCapacity) <==> titled && sized && threshold > input.capacity)
            && (r == Err(EndsBeforeStart) <==>
                  titled && sized && threshold <= input.capacity && input.endsAt <= input.startsAt)
            && (r == Err(DeadlineInPast) <==>
                  timed && (if input.deadline.Some? then input.deadline.value <= now else input.startsAt <= now))
            && (r == Err(DeadlineAfterStart) <==>
                  timed && input.deadline.Some? && now < input.deadline.value && input.startsAt < input.deadline.value)
            && r != Err(ThresholdNotPositive)
  {
  }

  /** What an accepted campaign is: as asked for, with threshold 5 and the earlier of the start and
      24 hours from now where nothing was said, open, with all its seats left. */
  lemma {:induction false} AcceptedAsAsked(input: CreateInput, now: int)
    ensures var r := NewGroupBuy(input, now);
            r.Ok? ==>
              && (r.value.title, r.value.capacity, r.value.startsAt, r.value.endsAt)
                 == (input.title, input.capacity, input.startsAt, input.endsAt)
              && r.value.threshold == (if input.threshold <= 0 then 5 else input.threshold)
              && (input.deadline.Some? ==> r.value.deadline == input.deadline.value)
              && (input.deadline.None? ==>
                    && r.value.deadline <= input.startsAt && r.value.deadline <= now + 86_400_000_000_000
                    && (r.value.deadline == input.startsAt || r.value.deadline == now + 86_400_000_000_000))
              && r.value.status == Open && r.value.remaining == input.capacity && r.value.version == 0
  {
  }

  /** Without a deadline of its own, a campaign is accepted exactly when it starts in the future
      and its window and sizes are sound: the default deadline never makes it invalid. */
  lemma DefaultsAreAccepted(input: CreateInput, now: int)
    requires input.deadline.None?
    ensures NewGroupBuy(input, now).Ok? <==>
            && input.title != "" && now < input.startsAt < input.endsAt
            && (if input.threshold <= 0 then 5 else input.threshold) <= input.capacity
  {
    var g := FillDefaults(input, now);
    assert g.deadline <= input.startsAt;
  }
}
