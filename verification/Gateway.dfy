/**
 * What the gateway's sink amounts to for the rest of the pipeline: events are emitted, may land on the stream any
 * number of times while they are unsent, and end sent or dropped. Sink.dfy proves that the real sink behaves so.
 */
module Gateway {
  import opened Events

  datatype Gateway = Gateway(
    emitted: multiset<UsageEvent>, unsent: multiset<UsageEvent>, dropped: multiset<UsageEvent>, stream: seq<UsageEvent>)

  const EMPTY := Gateway(multiset{}, multiset{}, multiset{}, [])

  datatype Move =
    | Emits(event: UsageEvent)
    | Sends(event: UsageEvent)
    | Lands(event: UsageEvent)
    | Drops(event: UsageEvent)
    | Waits

  function Apply(g: Gateway, m: Move): Gateway {
    match m
    case Emits(e) => g.(emitted := g.emitted + multiset{e}, unsent := g.unsent + multiset{e})
    case Sends(e) => if e in g.unsent then g.(unsent := g.unsent - multiset{e}, stream := g.stream + [e]) else g
    case Lands(e) => if e in g.unsent then g.(stream := g.stream + [e]) else g
    case Drops(e) =>
      if e in g.unsent then g.(unsent := g.unsent - multiset{e}, dropped := g.dropped + multiset{e}) else g
    case Waits => g
  }
}
