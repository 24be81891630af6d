/**
 * Vocabulary shared by both variant scripts: document nodes seen only through
 * their id, the entries of the page-wide `window.CFQ` event queue, and the
 * steps a mutation watcher records.
 */
module Browser {
  import opened Wrappers

  /** An element of the document. Markup and content are inert here; only the id attribute matters. */
  datatype Node = Element(id: Option<string>)

  /** An entry `{ emit: name }` of `window.CFQ`. */
  datatype Event = Emit(name: string)

  const VariantRendered := Emit("variantRendered")

  /** How many `variantRendered` notifications the queue holds. */
  function Rendered(q: seq<Event>): nat {
    multiset(q)[VariantRendered]
  }

  /** How many of `nodes` carry the id `id`. */
  function IdCount(nodes: seq<Node>, id: string): nat {
    multiset(nodes)[Element(Some(id))]
  }

  /** What a watcher does, in the order it does it: disconnect its observer, or run its callback. */
  datatype Step = Disconnect | RunCode

  /** How many times the callback ran. */
  function Runs(log: seq<Step>): nat {
    multiset(log)[RunCode]
  }

  /** Every run of the callback comes right after a disconnect. */
  predicate DisconnectsBeforeRuns(log: seq<Step>) {
    forall i :: 0 <= i < |log| && log[i] == RunCode ==> 0 < i && log[i - 1] == Disconnect
  }

  /** Every run of the callback is right followed by a disconnect. */
  predicate DisconnectsAfterRuns(log: seq<Step>) {
    forall i :: 0 <= i < |log| && log[i] == RunCode ==> i + 1 < |log| && log[i + 1] == Disconnect
  }
}
