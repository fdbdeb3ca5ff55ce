// What a receiver of numbered packets has seen, in unwrapped numbers.
// The ack tracker and the replay guard are both windows onto such a history.

module ReceiveHistory {
  import opened SequenceNumber

  /** Every number seen so far, and the greatest of them. */
  datatype History = Nothing | Seen(latest: int, numbers: set<int>)

  ghost predicate Consistent(h: History) {
    h.Seen? ==> h.latest in h.numbers && forall u :: u in h.numbers ==> u <= h.latest
  }

  /** The 32-bit value `s` can be told apart from what was seen: its true number is `u`. */
  predicate Distinguishable(h: History, u: int) {
    h.Nothing? || Near(h.latest, u)
  }

  function Note(h: History, u: int): History {
    match h
    case Nothing => Seen(u, {u})
    case Seen(latest, numbers) => Seen(if u > latest then u else latest, numbers + {u})
  }

  /** The number a 32-bit value stands for, seen from a history. */
  function NumberOf(h: History, s: SequenceNumber): (u: int)
    ensures Wrap(u) == s && Distinguishable(h, u)
  {
    match h
    case Nothing => s
    case Seen(latest, _) => Unwrap(latest, s)
  }

  lemma NumberOfFinds(h: History, u: int)
    requires h.Seen? && Distinguishable(h, u)
    ensures NumberOf(h, Wrap(u)) == u
  {
    UnwrapFinds(h.latest, u);
  }

  predicate Contains(h: History, u: int) {
    h.Seen? && u in h.numbers
  }

  lemma NoteKeepsConsistent(h: History, u: int)
    requires Consistent(h)
    ensures Consistent(Note(h, u))
    ensures forall v :: Contains(Note(h, u), v) <==> v == u || Contains(h, v)
  {
  }
}
