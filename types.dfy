/** The event, profile and region shapes shared by the metrics. */
module Types {

  /** A state change: the appliance entered `state` at minute `timestamp`. */
  datatype DataPoint<S> = DataPoint(state: S, timestamp: int)

  /** `initial` is the state in effect before the first event. */
  datatype Profile<S> = Profile(initial: S, events: seq<DataPoint<S>>)

  /** A span judged active by a rule, from `left` to `right`. */
  datatype Region<S> = Region(left: DataPoint<S>, right: DataPoint<S>)

  /** A region rule: given the carried left bound and the next event, says whether
      the span between them is a region and which event is the next left bound. */
  type Rule<!S> = (DataPoint<S>, DataPoint<S>) -> (bool, DataPoint<S>)

  /** An index that may be absent. */
  datatype Option<T> = None | Some(value: T)

  /** Outcome of an operation that may raise a validation error. */
  datatype Result<T> = Success(value: T) | Failure(error: string)

  /** Events ordered by non-decreasing timestamp. */
  predicate Sorted<S>(events: seq<DataPoint<S>>)
  {
    forall i, j :: 0 <= i < j < |events| ==> events[i].timestamp <= events[j].timestamp
  }
}
