/**
 * `EventHandler.loadEvents`: scan the events directory, keep the `.ts`
 * files, check each default export for `name` and `execute`, and subscribe
 * it to the client either for one firing (`once`) or for every firing
 * (`on`). The directory listing is an input, `None` when the directory does
 * not exist; the client's event emitter is the `EventBus` object, whose
 * subscription list the loader extends.
 */
module EventHandler {
  import opened Wrappers
  import opened Text

  /** The default export of an event file; a member the object lacks is `None` / `false`. */
  datatype EventDef = EventDef(name: Option<string>, once: Option<bool>, hasExecute: bool)

  datatype EventFile = EventFile(fileName: string, definition: EventDef)

  /** `client.once` or `client.on`. */
  datatype Mode = Once | On

  datatype Subscription = Subscription(eventName: string, mode: Mode)

  /** The shape check of the loader: the definition has both `name` and `execute`. */
  predicate IsValidEvent(e: EventDef) {
    e.name.Some? && e.hasExecute
  }

  /** `if (event.once)`: only a present `true` gives a one-shot subscription. */
  function ModeOf(e: EventDef): (m: Mode)
    ensures m == Once <==> e.once == Some(true)
  {
    if e.once == Some(true) then Once else On
  }

  /** What one file contributes: one subscription when it is a valid `.ts` event definition, else nothing. */
  function FileSubscriptions(f: EventFile): seq<Subscription> {
    if Subscribes(f)
    then [Subscription(f.definition.name.value, ModeOf(f.definition))]
    else []
  }

  /** The subscriptions a listing yields, in listing order. */
  function Subscriptions(files: seq<EventFile>): (r: seq<Subscription>)
    ensures |r| <= |files|
  {
    if files == [] then [] else Subscriptions(files[..|files| - 1]) + FileSubscriptions(files[|files| - 1])
  }

  /**
   * Listings compose: the subscriptions of a concatenated listing are those
   * of the first part followed by those of the second. With `Subscriptions`
   * of a single file (`SingleFile`), this says each valid `.ts` file yields
   * exactly one subscription, in directory-listing order, and any other file
   * yields none without stopping the scan.
   */
  lemma {:induction false} SubscriptionsAppend(a: seq<EventFile>, b: seq<EventFile>)
    ensures Subscriptions(a + b) == Subscriptions(a) + Subscriptions(b)
    decreases |b|
  {
    if b == [] {
      assert a + b == a;
    } else {
      var b' := b[..|b| - 1];
      var last := b[|b| - 1];
      assert (a + b)[..|a + b| - 1] == a + b';
      assert Subscriptions(a + b) == Subscriptions(a + b') + FileSubscriptions(last);
      SubscriptionsAppend(a, b');
    }
  }

  /** A single file: subscribed iff its name ends in `.ts` and it has `name` and `execute`; `once` iff `once` is true. */
  lemma SingleFile(f: EventFile)
    ensures |Subscriptions([f])| == (if EndsWith(f.fileName, ".ts") && IsValidEvent(f.definition) then 1 else 0)
    ensures |Subscriptions([f])| == 1 ==>
      Subscriptions([f])[0].eventName == f.definition.name.value &&
      (Subscriptions([f])[0].mode == Once <==> f.definition.once == Some(true))
  {
    assert [f][..0] == [];
    assert Subscriptions([f]) == FileSubscriptions(f);
  }

  /** A file is subscribed: a `.ts` name and a module with `name` and `execute`. */
  predicate Subscribes(f: EventFile) {
    EndsWith(f.fileName, ".ts") && IsValidEvent(f.definition)
  }

  /** The positions in a listing of the files that are subscribed. */
  function SubscribedPositions(files: seq<EventFile>): set<nat> {
    set i: nat | i < |files| && Subscribes(files[i])
  }

  /** Exactly one subscription per valid `.ts` file: no file is dropped, none is doubled. */
  lemma {:induction false} OneSubscriptionPerValidFile(files: seq<EventFile>)
    ensures |Subscriptions(files)| == |SubscribedPositions(files)|
  {
    if files != [] {
      var n := |files| - 1;
      var prefix := files[..n];
      OneSubscriptionPerValidFile(prefix);
      var before, last := SubscribedPositions(prefix), if Subscribes(files[n]) then {n} else {};
      PositionsStep(files);
      assert before !! last;
      assert |before + last| == |before| + |last|;
    }
  }

  /** The positions of a listing are those of all but its last file, plus the last when it is subscribed. */
  lemma PositionsStep(files: seq<EventFile>)
    requires files != []
    ensures SubscribedPositions(files) ==
      SubscribedPositions(files[..|files| - 1]) + (if Subscribes(files[|files| - 1]) then {|files| - 1} else {})
  {
    var n := |files| - 1;
    var prefix := files[..n];
    forall i: nat | i < n
      ensures files[i] == prefix[i]
    {
    }
  }

  /** One more file of the listing adds exactly that file's subscriptions. */
  lemma SubscriptionsStep(files: seq<EventFile>, i: nat)
    requires i < |files|
    ensures Subscriptions(files[..i + 1]) == Subscriptions(files[..i]) + FileSubscriptions(files[i])
  {
    assert files[..i + 1][..i] == files[..i];
  }

  /** The client's event emitter: the subscriptions made on it, oldest first. */
  class EventBus {
    var subscriptions: seq<Subscription>

    constructor ()
      ensures subscriptions == []
    {
      subscriptions := [];
    }
  }

  /**
   * `loadEvents`: a missing directory subscribes nothing; otherwise each
   * `.ts` file's definition is subscribed in listing order when valid and
   * skipped otherwise, the scan carrying on.
   */
  method LoadEvents(bus: EventBus, listing: Option<seq<EventFile>>)
    modifies bus
    ensures listing.None? ==> bus.subscriptions == old(bus.subscriptions)
    ensures listing.Some? ==> bus.subscriptions == old(bus.subscriptions) + Subscriptions(listing.value)
  {
    if listing.None? {
      return;
    }
    var eventFiles := listing.value;
    var i := 0;
    while i < |eventFiles|
      invariant 0 <= i <= |eventFiles|
      invariant bus.subscriptions == old(bus.subscriptions) + Subscriptions(eventFiles[..i])
    {
      var file := eventFiles[i];
      SubscriptionsStep(eventFiles, i);
      if EndsWith(file.fileName, ".ts") {
        var event := file.definition;
        if event.name.Some? && event.hasExecute {
          if event.once == Some(true) {
            bus.subscriptions := bus.subscriptions + [Subscription(event.name.value, Once)];
          } else {
            bus.subscriptions := bus.subscriptions + [Subscription(event.name.value, On)];
          }
        }
      }
      i := i + 1;
    }
    assert eventFiles[..i] == eventFiles;
  }
}
