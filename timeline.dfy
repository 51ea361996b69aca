/** Shared vocabulary of the visualization: events, partitions and the
    layout constants of `render`. */
module Timeline {

  datatype Option<T> = None | Some(value: T)

  /** Minimum horizontal distance between consecutive timestamps (BOX_GAP). */
  const BoxGap: real := 20.0
  /** Minimum horizontal distance between consecutive linearization points (EPSILON). */
  const LpGap: real := 20.0
  /** Padding added on both sides of a measured text width (BOX_TEXT_PADDING). */
  const BoxTextPadding: real := 10.0

  /** Operations come from the checked history; annotations are display-only
      and carry a tag (possibly empty) and free-text details. */
  datatype Kind = Operation | Annotation(tag: string, details: string)

  /** One history element. `gid` is the dense global id; `originalEnd` is the
      end before tie breaking, recorded for operations only. */
  datatype Event = Event(
    clientId: int,
    start: real,
    end: real,
    originalEnd: Option<real>,
    description: string,
    kind: Kind,
    gid: nat)

  /** A step of a partial linearization: a partition-local event index and the
      state after it. */
  datatype Step = Step(index: nat, stateDescription: string)

  /** A partition as the checker hands it over: its history, its partial
      linearizations (longest first) and the `Largest` map from a local event
      index to the longest linearization containing it. */
  datatype Partition = Partition(
    history: seq<Event>,
    lins: seq<seq<Step>>,
    largest: map<nat, nat>)

  /** Math.max on the (never NaN) reals of the model. */
  function Max(a: real, b: real): (r: real)
    ensures r >= a && r >= b && (r == a || r == b)
  {
    if a < b then b else a
  }
}
