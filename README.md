# Mycelium control packets, HTTP API decisions and dashboard tables in Dafny

This project models three small pieces of the mycelium overlay network, and proves properties about them:

- **Control packets** (`packet.dfy`). A node sends three Babel control TLVs to its peers: Hello, IHU and Update (sections 4.6.5, 4.6.6 and 4.6.9 of RFC 8966).
  - The peer's Hello counter is a field of a `Peer` class.
  - `NewHello` stamps the Hello with that counter, then advances it once, wrapping at 2^16 (section 3.2.1 of RFC 8966).
  - The `SequenceNumbers` and `Metrics` modules (`seqno.dfy`, `metric.dfy`) hold the 16-bit sequence number and the 16-bit metric. In the metric, 0xFFFF means infinite.
- **HTTP API** (`api.dfy`, `json.dfy`). These are the decisions the handlers make:
  - query defaults: peek or pop, and timeouts;
  - the conversion between a topic and an `Option`;
  - the HTTP status and body that each handler outcome produces;
  - how a metric is reported and written as JSON;
  - how route snapshots are listed.
- **Dashboard** (`sorting.dfy`, `dashboard.dfy`):
  - the hand-written order on peer types;
  - sorting the peers table and the routes table in place by a column;
  - the sort-column state that a header click changes;
  - the pagination of both tables.

Whatever the source leaves to other components comes in as a parameter. That covers the outcome of waiting with a timeout, the result of submitting a message, the derivation of an address from a key, and the text form of a subnet.

## Model

| member | source | states |
|---|---|---|
| `Packet.PacketTypeTag` | src/packet.rs:14-19 | a data packet is tagged 0 and a control packet 1 |
| `Packet.PacketTypeTagInjective` | src/packet.rs:16-19 | the two tags differ, so the tag identifies the packet kind |
| `Packet.Peer.IncrementHelloSeqno` | src/packet.rs:44 | the peer's Hello counter advances by exactly one wrapping increment; no other field changes |
| `Packet.NewHello` | src/packet.rs:42-46 | the Hello is unicast and carries the counter from before the call and the given interval; afterwards the counter is the next sequence number; only that field of the peer changes |
| `Packet.HelloRunSeqnos` | src/packet.rs:42-46 | n Hellos in a row carry s, s+1, …, s+n-1 modulo 2^16 with the given interval, and leave the counter at s+n |
| `Packet.HelloRunDistinct` | src/packet.rs:42-46 | up to 2^16 consecutive Hellos never reuse a sequence number |
| `Packet.SendHellos` | src/packet.rs:42-46 | calling NewHello n times on one peer yields exactly the Hellos and the final counter of the n-step run, so the run lemmas speak about the method |
| `Packet.HelloPair` | src/packet.rs:42-46 | two NewHello calls on one peer give consecutive sequence numbers and advance the counter by two |
| `Packet.NewIhu` | src/packet.rs:48-51 | an IHU with rx cost 0 (finite), the given interval and the address `Some(destAddress)` |
| `Packet.NewUpdate` | src/packet.rs:53-61 | an Update carrying interval, seqno, metric, subnet and router id unchanged |
| `SequenceNumbers.Next` | src/packet.rs:44 | the increment adds one below 0xFFFF and wraps 0xFFFF to 0 |
| `SequenceNumbers.Advance` | src/packet.rs:42-46 | n increments add n modulo 2^16 |
| `SequenceNumbers.AdvanceFullCycle` | src/packet.rs:44 | 2^16 increments return to the starting value |
| `SequenceNumbers.AdvanceDistinct` | src/packet.rs:44 | fewer than 2^16 increments never revisit a value |
| `Api.DestinationIp` | src/api.rs:80-87 | an IP destination is used as given; a key destination becomes the IPv6 address derived from the key |
| `Api.SubmittedTopic` | src/api.rs:237-241 | an absent submitted topic becomes the empty topic; a present one is kept |
| `Api.ReportedTopic` | src/api.rs:182-186 | a stored topic is reported as absent exactly when it is empty, and as itself otherwise |
| `Api.SubmittedThenReported` | src/api.rs:237-241 | submitting and then reporting keeps a topic exactly when it is not present-but-empty; `Some([])` comes back as `None` |
| `Api.ReportedThenSubmitted` | src/api.rs:182-186 | every stored topic survives being reported and submitted again |
| `Api.ReceiveInfo` | src/api.rs:175-189 | a received message is reported with every field copied and its topic converted |
| `Api.ReceiveInfoInjective` | src/api.rs:264-273 | different received messages give different reports |
| `Api.Peek` | src/api.rs:145-148 | peek holds exactly for `Some(true)`; absent or `false` means pop |
| `Api.TimeoutSecs` | src/api.rs:150-153 | the timeout in seconds is the given value, or 0 when absent |
| `Api.GetMessageCall` | src/api.rs:169-171 | the message stack is asked to pop exactly when peek is absent or false, to wait the query's timeout in seconds (0 exactly when it is absent or 0), and to filter on the query's topic |
| `Api.GetMessage` | src/api.rs:169-190 | a message that arrives in time is returned as its report; otherwise the answer is 204 and nothing else |
| `Api.AwaitReply` | src/api.rs:212-215 | the caller waits for a reply exactly when a reply timeout is given |
| `Api.ReplyTimeoutSecs` | src/api.rs:217-220 | the reply timeout in seconds is the given value, or 0 when absent |
| `Api.PushMessageCall` | src/api.rs:228-244 | the message goes to the destination's address with the payload, the submitted topic, a 300-second try duration and await-reply set exactly when a reply timeout is given |
| `Api.PushMessage` | src/api.rs:245-289 | refused submission gives 400; no await gives 201 with the id; a reply gives 200 with the reply; a `None` reply or a dropped sender gives 500; a timeout gives 408 with the id |
| `Api.PushMessageShapes` | src/api.rs:245-289 | success statuses are only 200, 201 and 408; a reply body comes exactly with 200; an id body carries the accepted id; errors are only 400 (exactly on refusal) and 500; 201 comes exactly when the caller does not wait |
| `Api.ReplyMessage` | src/api.rs:292-309 | a reply is handed on with the original id, the destination's address, the payload and the 300-second try duration, and the answer is always 204 |
| `Api.MessageStatus` | src/api.rs:311-322 | a known id returns its status; an unknown id gives 404 |
| `Api.ToApiMetric` | src/api.rs:366-370 | an infinite metric is reported as `Infinite`; a finite one as `Value` holding the same number |
| `Api.ToApiMetricInjective` | src/api.rs:330-336 | distinct metrics are reported distinctly, so infinity never looks like a finite value |
| `Api.MetricJson` | src/api.rs:417-427 | `Infinite` is written as the JSON string `"infinite"`; a value is written as its decimal text, with no leading zero |
| `Api.MetricJsonRoundTrip` | src/api.rs:417-427 | every reported metric can be read back from its JSON text |
| `Api.MetricJsonDistinct` | src/api.rs:417-427 | two metrics have the same JSON text exactly when they are equal |
| `Api.FiniteMetricSerialization` | src/api.rs:490-496 | `Value(10)` is written as `10` |
| `Api.InfiniteMetricSerialization` | src/api.rs:498-504 | `Infinite` is written as `"infinite"` |
| `Api.RouteListing` | src/api.rs:357-373 | the listing has one route per snapshot entry, in the same order, with the subnet's text, the neighbour's connection identifier, the converted metric and the seqno unchanged |
| `Api.RouteListingAppend` | src/api.rs:381-397 | listing is order-preserving: listing two runs of routes gives the two listings one after the other |
| `Api.RetractedRouteListedInfinite` | src/api.rs:390-394 | a route with an infinite metric is listed with the metric `"infinite"` |
| `Json.Decimal` | src/api.rs:424 | an integer is written as a non-empty run of digits with no leading zero, and 0 as exactly `0` |
| `Json.DecimalRoundTrip` | src/api.rs:424 | reading the decimal text of a number gives the number back |
| `Json.Quoted` | src/api.rs:423 | a string literal is the text between two quote characters |
| `Sorting.Ordering.Reverse` | mycelium-ui/src/main.rs:270-273 | reversing swaps Less and Greater and keeps Equal |
| `Sorting.CompareInts` | mycelium-ui/src/main.rs:265-267 | Less, Equal and Greater hold exactly when the numbers compare that way |
| `Sorting.CompareStringsAntisymmetric` | mycelium-ui/src/main.rs:263 | comparing text the other way round reverses the answer |
| `Sorting.CompareStringsEqual` | mycelium-ui/src/main.rs:263 | two texts compare equal exactly when they are the same |
| `Sorting.CompareStringsTransitive` | mycelium-ui/src/main.rs:263 | "not greater" on text is transitive |
| `Sorting.CompareStringsIsTotalPreorder` | mycelium-ui/src/main.rs:421-422 | text comparison is an order a sort can rely on |
| `Sorting.InsertInto` | mycelium-ui/src/main.rs:261-274 | one insertion step extends the sorted prefix by one; the new prefix is a rearrangement of the old one, every element after position i stays in place, and nothing moves when the new element is already in place |
| `Sorting.ShiftLeft` | mycelium-ui/src/main.rs:261-274 | the swapping loop of one insertion step: the prefix up to i ends sorted, the elements are the same, everything after i stays in place, and nothing moves when the element is already in place |
| `Sorting.InsertionSortBy` | mycelium-ui/src/main.rs:261-274 | the array ends sorted by the comparator and holds the same elements; an already sorted array is left unchanged |
| `Dashboard.ComparePeerTypesByRank` | mycelium-ui/src/main.rs:222-234 | the hand-written peer-type comparison is the numeric order of the ranks Static 0, LinkLocalDiscovery 1, Inbound 2 |
| `Dashboard.ComparePeerTypesOrder` | mycelium-ui/src/main.rs:222-234 | Static < LinkLocalDiscovery < Inbound |
| `Dashboard.ComparePeerTypesAntisymmetric` | mycelium-ui/src/main.rs:222-234 | comparing b with a is the reverse of comparing a with b |
| `Dashboard.PeerTypesEqual` | mycelium-ui/src/main.rs:242-246 | peer types are equal exactly when the comparison answers Equal |
| `Dashboard.ComparePeerTypesIsTotalPreorder` | mycelium-ui/src/main.rs:222-240 | the peer-type comparison is a total order a sort can rely on |
| `Dashboard.Directed` | mycelium-ui/src/main.rs:270-273 | Ascending returns the comparison unchanged and Descending returns it reversed, so under Descending "not greater" means the key comparison was not Less |
| `Dashboard.DirectedIsTotalPreorder` | mycelium-ui/src/main.rs:427-430 | reading a usable order in either direction is again a usable order |
| `Dashboard.ComparePeers` | mycelium-ui/src/main.rs:262-269 | an unknown column compares every pair of peers Equal |
| `Dashboard.PeerKeyOrderIsTotalPreorder` | mycelium-ui/src/main.rs:262-269 | comparing peers by any column is an order a sort can rely on |
| `Dashboard.SortPeers` | mycelium-ui/src/main.rs:256-275 | the peers are rearranged, not changed, into ascending or descending order of the column's key; for an unknown column they stay in place |
| `Dashboard.CompareMetrics` | mycelium-ui/src/main.rs:423 | metrics compare Equal exactly when they are equal, and every finite metric comes before infinite |
| `Dashboard.CompareRoutes` | mycelium-ui/src/main.rs:420-426 | an unknown column compares every pair of routes Equal |
| `Dashboard.RouteKeyOrderIsTotalPreorder` | mycelium-ui/src/main.rs:420-426 | comparing routes by any column is an order a sort can rely on |
| `Dashboard.SortRoutes` | mycelium-ui/src/main.rs:418-432 | the routes are rearranged, not changed, into ascending or descending order of the column's key; for an unknown column they stay in place |
| `Dashboard.ClampPage` | mycelium-ui/src/main.rs:284-291 | for a non-empty table the new page lies in [0, (len-1)/perPage]; an in-range target is kept, one below 0 gives 0, one beyond gives the last page |
| `Dashboard.PageWindowInRange` | mycelium-ui/src/main.rs:312-314 | on every existing page, start ≤ end ≤ len and the window holds at most one page of rows, and at least one row when the table is not empty |
| `Dashboard.ButtonsMatchPaging` | mycelium-ui/src/main.rs:358-370 | Previous is disabled exactly on page 0, and Next exactly on the last page; in both cases a click would not move the page |
| `Dashboard.EmptyTableButtonsDisabled` | mycelium-ui/src/main.rs:358-370 | an empty table can only be on page 0, and there both buttons are disabled |
| `Dashboard.SortIndicator` | mycelium-ui/src/main.rs:403-416 | no arrow unless the column is the active one; " ↑" for Ascending and " ↓" for Descending |
| `Dashboard.ClickColumn` | mycelium-ui/src/main.rs:293-304 | the clicked column becomes active; if it already was, its direction flips, otherwise it takes the table's fresh direction |
| `Dashboard.ClickColumnTwice` | mycelium-ui/src/main.rs:450-461 | two clicks on the active column restore its direction, two on another leave the flipped fresh direction, and afterwards only that header shows an arrow |
| `Dashboard.TableView.Peers` | mycelium-ui/src/main.rs:277-282 | the peers table starts on page 0, sorted by Type ascending, with 20 rows a page; a new column starts Descending |
| `Dashboard.TableView.Routes` | mycelium-ui/src/main.rs:434-439 | a routes table starts on page 0, sorted by Subnet descending, with 10 rows a page; a new column starts Ascending |
| `Dashboard.TableView.ChangePage` | mycelium-ui/src/main.rs:441-448 | the page becomes the clamped target and stays within the table's pages |
| `Dashboard.TableView.SortBy` | mycelium-ui/src/main.rs:450-461 | the sort state becomes what a header click gives, peers and routes differing only in the fresh direction; the table invariant is kept |
| `Dashboard.TableView.Window` | mycelium-ui/src/main.rs:469-471 | the current page's rows form a valid slice of at most one page |

## Left out

- The routing engine, the peer manager, the message stack and the TLV byte codec are not part of this model. Their source is not among the files modelled: the babel, router, peer_manager, message, metric and sequence_number modules.
- `SequenceNumbers`: sequence_number.rs is not part of this model.
  - The model assumes a 16-bit wrapping increment, following section 3.2.1 of RFC 8966.
  - The circular "newer than" comparison is not modelled, since none of the modelled code uses it.
- `Metrics`: metric.rs is not part of this model. The model assumes a 16-bit metric whose value 0xFFFF is infinite.
- `Packet.NewHello`: the unicast flag of the Hello comes from the name of the constructor the source calls. The Hello's actual layout is in a module that is not part of this model.
- `Http::spawn`, `get_peers` and `get_info` are left out: they are server plumbing and plain snapshot pass-through.
- Timeouts, `tokio::select!` and locking are left out. Their outcome is a parameter of the handler functions, so the model does not decide which of reply and timeout comes first.
- `Api.PushMessage`: the model assumes that an accepted submission made with await-reply set comes with a reply subscription, which is the message stack's contract. The panic of the `unwrap` when no subscription comes back is not modelled.
- The base64 module is left out: it is a thin wrapper over a library codec.
- `Json.Quoted`: this does no JSON string escaping. The only string the model writes is `infinite`, which needs none.
- `Api.DestinationIp`: deriving an address from a key is a parameter here.
- `Api.RouteListing`: the text form of a subnet is a parameter here.
- The dashboard's components, markup, signals, fetches, error display and address parsing are left out. They are UI plumbing.
- `Sorting.InsertionSortBy`: stability is stated only for input that is already sorted. That covers the unknown-column case. The full stability of `sort_by` (equal rows keep their relative order) is not proved.
- `Dashboard.PeerStats`: some orders come from types that are not part of this model, so the model stands in for them:
  - the endpoint is ordered by its text;
  - the connection state is ordered by its position in its type;
  - a route's metric in the dashboard gets the declaration order, with values numerically before infinite.
- `Dashboard.TableView.ChangePage`:
  - It requires a non-empty table. For an empty table, `len - 1` underflows. Both buttons are disabled there, so the closure is never called with an empty table (`Dashboard.EmptyTableButtonsDisabled`).
  - The 32-bit signed arithmetic of the closure is modelled on unbounded integers.
- `Dashboard.TableView`: the table length is fixed for a view. A re-render with a different number of rows, while the page signal persists, is not modelled.
