/**
 * The REST endpoint table (src/lib/api/endpoints.ts): which HTTP method and
 * path each client operation uses. Paths are relative to the base URL; ids
 * are interpolated verbatim, without encoding.
 */
module Endpoints {
  import opened Wrappers
  import opened Text

  datatype Resource = Activities | Donations | Events | Partners | Contacts | Posters

  /** The first path segment of a resource. */
  function Segment(r: Resource): string {
    match r
    case Activities => "activities"
    case Donations => "donations"
    case Events => "events"
    case Partners => "partners"
    case Contacts => "contacts"
    case Posters => "posters"
  }

  /** Which resource a first path segment names, if any. */
  function ResourceOf(s: string): (r: Option<Resource>)
    ensures r.Some? ==> Segment(r.value) == s
  {
    if s == "activities" then Some(Activities)
    else if s == "donations" then Some(Donations)
    else if s == "events" then Some(Events)
    else if s == "partners" then Some(Partners)
    else if s == "contacts" then Some(Contacts)
    else if s == "posters" then Some(Posters)
    else None
  }

  lemma ResourceOfSegment(r: Resource)
    ensures ResourceOf(Segment(r)) == Some(r)
  {
  }

  datatype Method = Get | Post | Put | Patch | Delete

  /** The client operations, with the ids they take. */
  datatype Op =
    | List(res: Resource)
    | Metrics(res: Resource)
    | Create(res: Resource)
    | Update(res: Resource, id: string)
    | Remove(res: Resource, id: string)
    | GetRsvps(eventId: string)
    | SubmitRsvp(eventId: string)
    | UpdateRsvp(eventId: string, rsvpId: string)
    | DeleteRsvp(eventId: string, rsvpId: string)
    | TogglePoster(id: string)

  datatype Request = Request(verb: Method, path: string)

  /** Only activities and donations expose monthly metrics. */
  predicate HasMetrics(r: Resource) {
    r == Activities || r == Donations
  }

  /** Contacts are never edited from the admin side. */
  predicate HasUpdate(r: Resource) {
    r != Contacts
  }

  /** `'/' + segments.join('/')`. */
  function PathOf(segments: seq<string>): string {
    "/" + Join(segments, '/')
  }

  /** The method and path segments of an operation the client defines. */
  function Shape(op: Op): Option<(Method, seq<string>)> {
    match op
    case List(r) => Some((Get, [Segment(r)]))
    case Metrics(r) => if HasMetrics(r) then Some((Get, [Segment(r), "metrics"])) else None
    case Create(r) => Some((Post, [Segment(r)]))
    case Update(r, id) => if HasUpdate(r) then Some((Put, [Segment(r), id])) else None
    case Remove(r, id) => Some((Delete, [Segment(r), id]))
    case GetRsvps(e) => Some((Get, ["events", e, "rsvp"]))
    case SubmitRsvp(e) => Some((Post, ["events", e, "rsvp"]))
    case UpdateRsvp(e, x) => Some((Put, ["events", e, "rsvp", x]))
    case DeleteRsvp(e, x) => Some((Delete, ["events", e, "rsvp", x]))
    case TogglePoster(id) => Some((Patch, ["posters", id, "toggle"]))
  }

  /**
   * The request an operation sends: `None` exactly for the operations the
   * client lacks, contact updates and metrics of the other resources.
   */
  function Route(op: Op): (r: Option<Request>)
    ensures op.Update? ==> (r.Some? <==> HasUpdate(op.res))
    ensures op.Metrics? ==> (r.Some? <==> HasMetrics(op.res))
    ensures !op.Update? && !op.Metrics? ==> r.Some?
    ensures r.Some? ==> |r.value.path| >= 1 && r.value.path[0] == '/'
  {
    match Shape(op)
    case None => None
    case Some((m, segs)) => Some(Request(m, PathOf(segs)))
  }

  /** The collection routes of each resource, written out. */
  lemma ResourceRoutes(r: Resource, id: string)
    ensures Route(List(r)) == Some(Request(Get, "/" + Segment(r)))
    ensures Route(Create(r)) == Some(Request(Post, "/" + Segment(r)))
    ensures HasMetrics(r) ==> Route(Metrics(r)) == Some(Request(Get, "/" + Segment(r) + "/metrics"))
    ensures HasUpdate(r) ==> Route(Update(r, id)) == Some(Request(Put, "/" + Segment(r) + "/" + id))
    ensures Route(Remove(r, id)) == Some(Request(Delete, "/" + Segment(r) + "/" + id))
  {
    var seg := Segment(r);
    assert ['/'] == "/";
    JoinTwo(seg, "metrics", '/');
    assert "/" + (seg + "/" + "metrics") == "/" + seg + "/metrics";
    JoinTwo(seg, id, '/');
    assert "/" + (seg + "/" + id) == "/" + seg + "/" + id;
    assert Join([seg], '/') == seg;
  }

  /** The RSVP collection of an event. */
  lemma RsvpRoutes(e: string)
    ensures Route(GetRsvps(e)) == Some(Request(Get, "/events/" + e + "/rsvp"))
    ensures Route(SubmitRsvp(e)) == Some(Request(Post, "/events/" + e + "/rsvp"))
  {
    assert ['/'] == "/";
    JoinThree("events", e, "rsvp", '/');
    assert "/" + ("events" + "/" + e + "/" + "rsvp") == "/events/" + e + "/rsvp";
  }

  /** One RSVP of an event. */
  lemma RsvpItemRoutes(e: string, x: string)
    ensures Route(UpdateRsvp(e, x)) == Some(Request(Put, "/events/" + e + "/rsvp/" + x))
    ensures Route(DeleteRsvp(e, x)) == Some(Request(Delete, "/events/" + e + "/rsvp/" + x))
  {
    assert ['/'] == "/";
    JoinFour("events", e, "rsvp", x, '/');
    assert "/" + ("events" + "/" + e + "/" + "rsvp" + "/" + x) == "/events/" + e + "/rsvp/" + x;
  }

  /** Switching a poster on or off is a `PATCH` on its `toggle` route. */
  lemma ToggleRoute(id: string)
    ensures Route(TogglePoster(id)) == Some(Request(Patch, "/posters/" + id + "/toggle"))
  {
    assert ['/'] == "/";
    JoinThree("posters", id, "toggle", '/');
    assert "/" + ("posters" + "/" + id + "/" + "toggle") == "/posters/" + id + "/toggle";
  }

  /** Reading an operation back from a method and the path's segments. */
  function ParseSegments(m: Method, segs: seq<string>): Option<Op>
    requires |segs| >= 1
  {
    var res := ResourceOf(segs[0]);
    if |segs| == 1 then
      if res.None? then None
      else if m == Get then Some(List(res.value))
      else if m == Post then Some(Create(res.value))
      else None
    else if |segs| == 2 then
      if res.None? then None
      else if m == Get && segs[1] == "metrics" && HasMetrics(res.value) then Some(Metrics(res.value))
      else if m == Put && HasUpdate(res.value) then Some(Update(res.value, segs[1]))
      else if m == Delete then Some(Remove(res.value, segs[1]))
      else None
    else if |segs| == 3 then
      if segs[0] == "events" && segs[2] == "rsvp" && m == Get then Some(GetRsvps(segs[1]))
      else if segs[0] == "events" && segs[2] == "rsvp" && m == Post then Some(SubmitRsvp(segs[1]))
      else if segs[0] == "posters" && segs[2] == "toggle" && m == Patch then Some(TogglePoster(segs[1]))
      else None
    else if |segs| == 4 then
      if segs[0] == "events" && segs[2] == "rsvp" && m == Put then Some(UpdateRsvp(segs[1], segs[3]))
      else if segs[0] == "events" && segs[2] == "rsvp" && m == Delete then Some(DeleteRsvp(segs[1], segs[3]))
      else None
    else None
  }

  /** Reading an operation back from a request: the inverse of `Route`. */
  function Parse(req: Request): Option<Op> {
    if req.path == [] || req.path[0] != '/' then None
    else ParseSegments(req.verb, Split(req.path[1..], '/'))
  }

  /** Each operation's own shape reads back as that operation. */
  lemma ParseShape(op: Op)
    requires Shape(op).Some?
    ensures |Shape(op).value.1| >= 1
    ensures ParseSegments(Shape(op).value.0, Shape(op).value.1) == Some(op)
  {
    match op
    case List(r) => ResourceOfSegment(r);
    case Metrics(r) => ResourceOfSegment(r);
    case Create(r) => ResourceOfSegment(r);
    case Update(r, _) => ResourceOfSegment(r);
    case Remove(r, _) => ResourceOfSegment(r);
    case GetRsvps(_) =>
    case SubmitRsvp(_) =>
    case UpdateRsvp(_, _) =>
    case DeleteRsvp(_, _) =>
    case TogglePoster(_) =>
  }

  /** Every id the operation carries is free of `/`. */
  predicate IdsWithoutSlash(op: Op) {
    match op
    case List(_) => true
    case Metrics(_) => true
    case Create(_) => true
    case Update(_, id) => '/' !in id
    case Remove(_, id) => '/' !in id
    case GetRsvps(e) => '/' !in e
    case SubmitRsvp(e) => '/' !in e
    case UpdateRsvp(e, x) => '/' !in e && '/' !in x
    case DeleteRsvp(e, x) => '/' !in e && '/' !in x
    case TogglePoster(id) => '/' !in id
  }

  /** The fixed segments never contain `/`. */
  lemma ShapeSeparatorFree(op: Op)
    requires IdsWithoutSlash(op) && Shape(op).Some?
    ensures |Shape(op).value.1| >= 1 && SeparatorFree(Shape(op).value.1, '/')
  {
  }

  /** For ids without `/`, a request determines the operation that sent it. */
  lemma RouteParse(op: Op)
    requires IdsWithoutSlash(op) && Route(op).Some?
    ensures Parse(Route(op).value) == Some(op)
  {
    var (m, segs) := Shape(op).value;
    ShapeSeparatorFree(op);
    SplitJoin(segs, '/');
    var path := PathOf(segs);
    assert path[1..] == Join(segs, '/');
    ParseShape(op);
  }

  /**
   * For ids without `/`, distinct operations send distinct requests, so the
   * server can tell every call apart.
   */
  lemma RouteInjective(a: Op, b: Op)
    requires IdsWithoutSlash(a) && IdsWithoutSlash(b)
    requires Route(a).Some? && Route(a) == Route(b)
    ensures a == b
  {
    RouteParse(a);
    RouteParse(b);
  }

  /**
   * Without that restriction the table is ambiguous: deleting the event with
   * id `x/rsvp/y` and deleting RSVP `y` of event `x` send the same request.
   */
  lemma SlashInIdCollides()
    ensures Route(Remove(Events, "x/rsvp/y")) == Route(DeleteRsvp("x", "y"))
  {
    ResourceRoutes(Events, "x/rsvp/y");
    RsvpItemRoutes("x", "y");
    assert "/" + "events" + "/" + "x/rsvp/y" == "/events/" + "x" + "/rsvp/" + "y";
  }
}
