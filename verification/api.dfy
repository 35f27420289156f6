/** The request descriptors the dashboard's data layer sends: the list query
    with its query-string builder, the create/update/delete mutations of the
    four paginated resources, the About document and its two mutations, and
    the cache tags each of them provides or invalidates. */
module Api {
  import opened Optional

  datatype Method = Get | Post | Put | Delete

  /** A query-parameter value as the views pass it. */
  datatype ParamValue = Null | Undefined | Text(text: string) | Number(number: int)

  datatype QueryParam = QueryParam(name: string, value: ParamValue)

  /** A `URLSearchParams`: name/value pairs in insertion order. */
  datatype SearchParam = SearchParam(name: string, value: string)

  /** A request: URL, method, query parameters and an optional JSON body. */
  datatype Request<B> = Request(url: string, verb: Method, params: seq<SearchParam>, body: Option<B>)

  /** The argument of every update mutation: the record's id and its new data. */
  datatype UpdatePayload<B> = UpdatePayload(id: string, data: B)

  /** The four paginated resources. */
  datatype Resource = Blogs | Projects | Experiences | Educations

  function Path(res: Resource): string {
    match res
    case Blogs => "/blogs"
    case Projects => "/projects"
    case Experiences => "/experiences"
    case Educations => "/educations"
  }

  /** The cache tag a resource's list query provides. */
  function Tag(res: Resource): string {
    match res
    case Blogs => "blogs"
    case Projects => "projects"
    case Experiences => "experience"
    case Educations => "education"
  }

  const AboutTag: string := "about"

  predicate IsDigit(c: char) {
    '0' <= c <= '9'
  }

  /** The number a string of decimal digits denotes. */
  function DecimalValue(s: string): (r: nat)
    requires forall k :: 0 <= k < |s| ==> IsDigit(s[k])
    decreases |s|
  {
    if |s| == 0 then 0
    else
      assert IsDigit(s[|s| - 1]);
      10 * DecimalValue(s[..|s| - 1]) + (s[|s| - 1] as int - '0' as int)
  }

  /** The decimal digits of `n`, most significant first, with no leading zero:
      they read back as `n`. */
  function Digits(n: nat): (r: string)
    ensures |r| >= 1
    ensures forall k :: 0 <= k < |r| ==> IsDigit(r[k])
    ensures r[0] == '0' ==> n == 0 && |r| == 1
    ensures DecimalValue(r) == n
    decreases n
  {
    var d := ('0' as int + n % 10) as char;
    if n < 10 then [d]
    else
      var r := Digits(n / 10) + [d];
      assert r[..|r| - 1] == Digits(n / 10);
      r
  }

  /** `String(value)` for a value that is not `null`: `undefined` and text as
      JavaScript prints them, an integer as an optional minus sign followed by
      its decimal digits. */
  function Render(v: ParamValue): (r: string)
    requires !v.Null?
    ensures v.Undefined? ==> r == "undefined"
    ensures v.Text? ==> r == v.text
    ensures v.Number? ==> |r| >= 1 && (r[0] == '-' <==> v.number < 0)
    ensures v.Number? && v.number >= 0 ==>
      (forall k :: 0 <= k < |r| ==> IsDigit(r[k])) && DecimalValue(r) == v.number
    ensures v.Number? && v.number < 0 ==>
      (forall k :: 1 <= k < |r| ==> IsDigit(r[k])) && DecimalValue(r[1..]) == -v.number
  {
    match v
    case Undefined => "undefined"
    case Text(s) => s
    case Number(n) => if n < 0 then "-" + Digits(-n) else Digits(n)
  }

  /** The query-string builder of every list query: each argument whose value
      is not `null` is appended in order; absent arguments give no parameters. */
  function BuildParams(args: Option<seq<QueryParam>>): (r: seq<SearchParam>)
    ensures args.None? ==> r == []
    ensures args.Some? ==> |r| <= |args.value|
    ensures args.Some? && (forall i :: 0 <= i < |args.value| ==> !args.value[i].value.Null?) ==>
              |r| == |args.value| && forall i :: 0 <= i < |r| ==> r[i] == SearchParam(args.value[i].name, Render(args.value[i].value))
  {
    match args
    case None => []
    case Some(xs) => AppendParams(xs)
  }

  function AppendParams(xs: seq<QueryParam>): (r: seq<SearchParam>)
    ensures |r| <= |xs|
    ensures (forall i :: 0 <= i < |xs| ==> !xs[i].value.Null?) ==>
              |r| == |xs| && forall i :: 0 <= i < |r| ==> r[i] == SearchParam(xs[i].name, Render(xs[i].value))
    ensures (forall i :: 0 <= i < |xs| ==> xs[i].value.Null?) ==> r == []
    decreases |xs|
  {
    if |xs| == 0 then []
    else if xs[0].value.Null? then AppendParams(xs[1..])
    else [SearchParam(xs[0].name, Render(xs[0].value))] + AppendParams(xs[1..])
  }

  /** The builder works argument by argument, so the parameters keep the order
      of the arguments they come from. */
  lemma {:induction false} AppendParamsSplit(a: seq<QueryParam>, b: seq<QueryParam>)
    ensures AppendParams(a + b) == AppendParams(a) + AppendParams(b)
    decreases |a|
  {
    if |a| == 0 {
      assert a + b == b;
    } else {
      assert (a + b)[0] == a[0];
      assert (a + b)[1..] == a[1..] + b;
      AppendParamsSplit(a[1..], b);
      if !a[0].value.Null? {
        var p := [SearchParam(a[0].name, Render(a[0].value))];
        assert p + AppendParams(a[1..]) + AppendParams(b) == p + (AppendParams(a[1..]) + AppendParams(b));
      }
    }
  }

  /** Exactly the `null` arguments are dropped: a parameter is produced for an
      argument if and only if its value is not `null`. */
  lemma SkipsOnlyNull(a: seq<QueryParam>, q: QueryParam, b: seq<QueryParam>)
    ensures |AppendParams(a + [q] + b)| == |AppendParams(a)| + |AppendParams(b)| + (if q.value.Null? then 0 else 1)
    ensures !q.value.Null? ==> AppendParams(a + [q] + b)[|AppendParams(a)|] == SearchParam(q.name, Render(q.value))
  {
    AppendParamsSplit(a + [q], b);
    AppendParamsSplit(a, [q]);
    assert AppendParams([q]) == (if q.value.Null? then [] else [SearchParam(q.name, Render(q.value))]) by {
      assert [q][1..] == [];
    }
  }

  /** The arguments every dashboard passes to its list query. */
  function PageArgs(page: int): seq<QueryParam> {
    [QueryParam("page", Number(page)), QueryParam("limit", Number(5))]
  }

  /** The page and the fixed page size both reach the query string, in that
      order. */
  lemma PageParams(page: int)
    ensures BuildParams(Some(PageArgs(page))) == [SearchParam("page", Render(Number(page))), SearchParam("limit", "5")]
  {
    var xs := PageArgs(page);
    assert forall i :: 0 <= i < |xs| ==> !xs[i].value.Null?;
    assert Render(Number(5)) == "5" by {
      assert Digits(5) == ['5'];
    }
  }

  /** Every endpoint of the data layer, with the arguments that reach its URL. */
  datatype Call =
    | ListCall(res: Resource)
    | AddCall(res: Resource)
    | UpdateCall(res: Resource, id: string)
    | DeleteCall(res: Resource, id: string)
    | AboutCall
    | SectionCall(section: string)
    | SkillsCall(category: string)
  {
    predicate IsMutation() { !ListCall? && !AboutCall? }
  }

  /** `getX`: GET on the resource path with the built query parameters. */
  function ListRequest<B>(res: Resource, args: Option<seq<QueryParam>>): (r: Request<B>)
    ensures r.body.None? && r.params == BuildParams(args)
    ensures Locate(r.verb, r.url) == Some(ListCall(res))
  {
    Request(Path(res), Get, BuildParams(args), None)
  }

  /** `addX`: POST on the resource path with the given record as body. */
  function AddRequest<B>(res: Resource, data: B): (r: Request<B>)
    ensures r.body == Some(data) && r.params == []
    ensures Locate(r.verb, r.url) == Some(AddCall(res))
  {
    Request(Path(res), Post, [], Some(data))
  }

  /** `updateX`: PUT on the resource path followed by the id, with the
      payload's data as body. */
  function UpdateRequest<B>(res: Resource, p: UpdatePayload<B>): (r: Request<B>)
    ensures r.body == Some(p.data) && r.params == []
    ensures Locate(r.verb, r.url) == Some(UpdateCall(res, p.id))
  {
    ItemPath(res, p.id);
    Request(Path(res) + "/" + p.id, Put, [], Some(p.data))
  }

  /** `deleteX`: DELETE on the resource path followed by the id, no body. */
  function DeleteRequest<B>(res: Resource, id: string): (r: Request<B>)
    ensures r.body.None? && r.params == []
    ensures Locate(r.verb, r.url) == Some(DeleteCall(res, id))
  {
    ItemPath(res, id);
    Request(Path(res) + "/" + id, Delete, [], None)
  }

  /** `getAbout`: GET /about with no parameters. */
  function AboutRequest<B>(): (r: Request<B>)
    ensures r.body.None? && r.params == []
    ensures Locate(r.verb, r.url) == Some(AboutCall)
  {
    Request("/about", Get, [], None)
  }

  /** `updateAboutSection`: PUT /about/section/{section} with the data as body. */
  function SectionRequest<B>(section: string, data: B): (r: Request<B>)
    ensures r.body == Some(data) && r.params == []
    ensures Locate(r.verb, r.url) == Some(SectionCall(section))
  {
    Prefixed("/about/section/", section);
    Request("/about/section/" + section, Put, [], Some(data))
  }

  /** `updateSkillsData`: PUT /about/skills/{category} with the data as body. */
  function SkillsRequest<B>(category: string, data: B): (r: Request<B>)
    ensures r.body == Some(data) && r.params == []
    ensures Locate(r.verb, r.url) == Some(SkillsCall(category))
  {
    Prefixed("/about/skills/", category);
    assert !StartsWith("/about/skills/" + category, "/about/section/") by {
      assert ("/about/skills/" + category)[8] != "/about/section/"[8];
    }
    Request("/about/skills/" + category, Put, [], Some(data))
  }

  predicate StartsWith(s: string, p: string) {
    |p| <= |s| && s[..|p|] == p
  }

  lemma Prefixed(p: string, s: string)
    ensures StartsWith(p + s, p) && (p + s)[|p|..] == s
  {
    assert (p + s)[..|p|] == p;
  }

  /** Which resource, if any, owns the item URL `url`. */
  function ItemOwner(url: string): Option<Resource> {
    if StartsWith(url, "/blogs/") then Some(Blogs)
    else if StartsWith(url, "/projects/") then Some(Projects)
    else if StartsWith(url, "/experiences/") then Some(Experiences)
    else if StartsWith(url, "/educations/") then Some(Educations)
    else None
  }

  lemma ItemPath(res: Resource, id: string)
    ensures ItemOwner(Path(res) + "/" + id) == Some(res)
    ensures (Path(res) + "/" + id)[|Path(res)| + 1..] == id
    ensures !StartsWith(Path(res) + "/" + id, "/about/section/") && !StartsWith(Path(res) + "/" + id, "/about/skills/")
  {
    var u := Path(res) + "/" + id;
    Prefixed(Path(res) + "/", id);
    assert u == (Path(res) + "/") + id;
    assert u[1] != "/about/section/"[1];
    match res
    case Blogs =>
    case Projects =>
      assert u[1] != "/blogs/"[1];
    case Experiences =>
      assert u[1] != "/blogs/"[1] && u[1] != "/projects/"[1];
    case Educations =>
      assert u[1] != "/blogs/"[1] && u[1] != "/projects/"[1];
      assert u[2] != "/experiences/"[2];
  }

  /** The endpoint a request addresses, read back from its method and URL. */
  function Locate(verb: Method, url: string): Option<Call> {
    match verb
    case Get =>
      if url == "/about" then Some(AboutCall)
      else if url == "/blogs" then Some(ListCall(Blogs))
      else if url == "/projects" then Some(ListCall(Projects))
      else if url == "/experiences" then Some(ListCall(Experiences))
      else if url == "/educations" then Some(ListCall(Educations))
      else None
    case Post =>
      if url == "/blogs" then Some(AddCall(Blogs))
      else if url == "/projects" then Some(AddCall(Projects))
      else if url == "/experiences" then Some(AddCall(Experiences))
      else if url == "/educations" then Some(AddCall(Educations))
      else None
    case Put =>
      if StartsWith(url, "/about/section/") then Some(SectionCall(url[|"/about/section/"|..]))
      else if StartsWith(url, "/about/skills/") then Some(SkillsCall(url[|"/about/skills/"|..]))
      else (
        match ItemOwner(url)
        case Some(res) => Some(UpdateCall(res, url[|Path(res)| + 1..]))
        case None => None)
    case Delete =>
      match ItemOwner(url)
      case Some(res) => Some(DeleteCall(res, url[|Path(res)| + 1..]))
      case None => None
  }

  /** The tags a query endpoint provides: each query provides exactly one tag
      and a mutation provides none. */
  function Provides(c: Call): (r: set<string>)
    ensures |r| <= 1
    ensures r != {} <==> c.ListCall? || c.AboutCall?
  {
    match c
    case ListCall(res) => {Tag(res)}
    case AboutCall => {AboutTag}
    case _ => {}
  }

  /** The tags a mutation endpoint invalidates: each mutation invalidates
      exactly one tag, a query none, and no endpoint both provides and
      invalidates. */
  function Invalidates(c: Call): (r: set<string>)
    ensures |r| <= 1
    ensures r != {} <==> !(c.ListCall? || c.AboutCall?)
    ensures r * Provides(c) == {}
  {
    match c
    case AddCall(res) => {Tag(res)}
    case UpdateCall(res, _) => {Tag(res)}
    case DeleteCall(res, _) => {Tag(res)}
    case SectionCall(_) => {AboutTag}
    case SkillsCall(_) => {AboutTag}
    case _ => {}
  }

  /** The entity an endpoint belongs to; `None` stands for the About document. */
  function Entity(c: Call): Option<Resource> {
    match c
    case ListCall(res) => Some(res)
    case AddCall(res) => Some(res)
    case UpdateCall(res, _) => Some(res)
    case DeleteCall(res, _) => Some(res)
    case _ => None
  }

  /** A mutation makes a query refetch exactly when both belong to the same
      entity, and then it invalidates exactly the tag the query provides. */
  lemma MutationRefreshesOwnList(m: Call, q: Call)
    requires m.IsMutation() && !q.IsMutation()
    ensures Invalidates(m) * Provides(q) != {} <==> Entity(m) == Entity(q)
    ensures Entity(m) == Entity(q) ==> Invalidates(m) == Provides(q)
  {
    TagsDistinct();
    var mt := if m.SectionCall? || m.SkillsCall? then AboutTag else Tag(m.res);
    var qt := if q.AboutCall? then AboutTag else Tag(q.res);
    assert Invalidates(m) == {mt} && Provides(q) == {qt};
    assert mt in {mt} * {qt} <==> mt == qt;
    assert mt == qt <==> Entity(m) == Entity(q);
  }

  /** No two resources share a tag, and none uses the About tag. */
  lemma TagsDistinct()
    ensures forall a: Resource, b: Resource :: Tag(a) == Tag(b) ==> a == b
    ensures forall a: Resource :: Tag(a) != AboutTag
  {
    forall a: Resource, b: Resource | Tag(a) == Tag(b) ensures a == b {
      assert Tag(a)[..2] == Tag(b)[..2];
    }
    forall a: Resource ensures Tag(a) != AboutTag {
      assert Tag(a)[0] != AboutTag[0];
    }
  }
}
