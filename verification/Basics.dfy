// Values shared by every module: an optional value, and the faults that any
// durable step of oku may meet.
module Basics {
  datatype Option<+T> = None | Some(value: T)

  function Get<K, V>(m: map<K, V>, k: K): Option<V> {
    if k in m then Some(m[k]) else None
  }

  /** The map that holds exactly `v` at `k`: set for Some, absent for None. */
  function Put<K, V>(m: map<K, V>, k: K, v: Option<V>): map<K, V> {
    if v.Some? then m[k := v.value] else m - {k}
  }

  /** What happens to one step that reads or writes the disk. */
  datatype Fate =
    | Works      // the step is done and reports success
    | Fails      // nothing happened and the step reports an error
    | FailsLate  // the step is done and still reports an error
    | Dies       // the process stops before the step

  datatype Status = Good | Failed | Dead

  /** A run meets the fates in order. After the last one every step works. */
  function Next(fates: seq<Fate>): Fate {
    if fates == [] then Works else fates[0]
  }

  function Rest(fates: seq<Fate>): seq<Fate> {
    if fates == [] then [] else fates[1..]
  }

  function StatusOf(f: Fate): Status {
    match f
    case Works => Good
    case Dies => Dead
    case _ => Failed
  }

  predicate TakesEffect(f: Fate) {
    f.Works? || f.FailsLate?
  }
}
