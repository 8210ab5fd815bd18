/** What a request to the server can come to. */
module Services {

  datatype Option<+T> = None | Some(value: T)

  function Get<K, V>(m: map<K, V>, k: K): Option<V> {
    if k in m then Some(m[k]) else None
  }

  datatype Outcome = Good | Refused | LinkDown

  /** An outcome, and whether the request was carried out though its reply was not good. */
  datatype Reply = Reply(outcome: Outcome, done: bool)
  {
    predicate CarriedOut() {
      outcome.Good? || done
    }
  }

  /** Any outcome: nothing is promised of the server or the link. */
  method Answer() returns (o: Outcome) {
    var pick: int := *;
    o := if pick == 0 then Good else if pick == 1 then Refused else LinkDown;
  }
}
