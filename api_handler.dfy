/**
 * `EmployeeApiHandler`: the route decision for `/api/employees`, the
 * partial-update merge of PUT, and the five handlers over the DAO. A
 * response is its status, Content-Type and body; sending it is left out.
 *
 * The handlers are proved against two functions of the table, the request
 * and the two library parsers: `Reply`, the response, and `After`, the
 * table afterwards.
 */
module Api {
  import opened Wrappers
  import opened Text
  import opened Decimals
  import opened Model
  import opened Dao
  import opened Json
  import opened Params

  datatype Response = Response(status: int, contentType: string, body: string)

  const TextType: string := "text/plain; charset=utf-8"
  const JsonType: string := "application/json; charset=utf-8"

  /** `sendText`. */
  function PlainText(status: int, text: string): Response
  {
    Response(status, TextType, text)
  }

  /** `sendJson`. */
  function JsonBody(status: int, json: string): Response
  {
    Response(status, JsonType, json)
  }

  /** The catch-all of `handle`: status 500 and the exception message as `{"error":"…"}`. */
  function Failure(msg: string): Response
  {
    JsonBody(500, "{\"error\":\"" + JsonEscaped(msg) + "\"}")
  }

  /** The error body is a one-member object whose string reads back as the message. */
  lemma FailureCarriesMessage(msg: string)
    ensures Failure(msg).status == 500 && Failure(msg).contentType == JsonType
    ensures Failure(msg).body == "{\"error\":" + Quote(Some(msg)) + "}"
    ensures ReadJsonString(Quote(Some(msg))) == Some(msg)
  {
    var e := JsonEscaped(msg);
    assert "{\"error\":\"" == "{\"error\":" + "\"";
    assert "{\"error\":\"" + e + "\"}" == "{\"error\":" + ("\"" + e + "\"") + "}";
    QuoteRoundTrip(Some(msg));
  }

  // ----- routing -----

  datatype Route =
    | List
    | Create
    | GetOne(id: int)
    | Update(id: int)
    | Delete(id: int)
    | InvalidId
    | MethodNotAllowed
    | NotFound

  predicate IsCollection(path: string)
  {
    path == "/api/employees" || path == "/api/employees/"
  }

  /** A path outside the collection whose fourth `/`-piece is an `int`. */
  predicate HasItemId(path: Option<string>)
  {
    path.Some? && !IsCollection(path.value) && |JavaSplit(path.value, '/')| >= 4 &&
    ParseInt(JavaSplit(path.value, '/')[3]).Some?
  }

  /** The route `handle` takes for a method and a request path (a null path counts as the collection). */
  function Decide(verb: string, path: Option<string>): (r: Route)
    ensures r.List? <==> (path.None? || IsCollection(path.value)) && verb == "GET"
    ensures r.Create? <==> (path.None? || IsCollection(path.value)) && verb == "POST"
    ensures r.GetOne? <==> HasItemId(path) && verb == "GET"
    ensures r.Update? <==> HasItemId(path) && verb == "PUT"
    ensures r.Delete? <==> HasItemId(path) && verb == "DELETE"
    ensures r.MethodNotAllowed? <==>
              ((path.None? || IsCollection(path.value)) && verb != "GET" && verb != "POST") ||
              (HasItemId(path) && verb != "GET" && verb != "PUT" && verb != "DELETE")
    ensures (r.GetOne? || r.Update? || r.Delete?) ==>
              path.Some? && !IsCollection(path.value) && |JavaSplit(path.value, '/')| >= 4 &&
              ParseInt(JavaSplit(path.value, '/')[3]) == Some(r.id) && MinInt <= r.id <= MaxInt
    ensures r.InvalidId? <==>
              path.Some? && !IsCollection(path.value) && |JavaSplit(path.value, '/')| >= 4 &&
              ParseInt(JavaSplit(path.value, '/')[3]).None?
    ensures r.NotFound? <==> path.Some? && !IsCollection(path.value) && |JavaSplit(path.value, '/')| < 4
  {
    var p := if path.None? then "/api/employees" else path.value;
    if IsCollection(p) then
      if verb == "GET" then List else if verb == "POST" then Create else MethodNotAllowed
    else
      var parts := JavaSplit(p, '/');
      if |parts| >= 4 then
        match ParseInt(parts[3])
        case None => InvalidId
        case Some(id) =>
          if verb == "GET" then GetOne(id)
          else if verb == "PUT" then Update(id)
          else if verb == "DELETE" then Delete(id)
          else MethodNotAllowed
      else NotFound
  }

  lemma ItemPathJoin(digits: string)
    ensures Join(["", "api", "employees", digits], '/') == "/api/employees/" + digits
  {
    var parts := ["", "api", "employees", digits];
    assert Join(parts[3..], '/') == digits;
    assert Join(parts[2..], '/') == "employees/" + digits;
    assert Join(parts[1..], '/') == "api/employees/" + digits;
  }

  /** An item path splits into the empty piece, `api`, `employees` and the id text. */
  lemma ItemPathSplits(digits: string)
    requires digits != [] && '/' !in digits
    ensures JavaSplit("/api/employees/" + digits, '/') == ["", "api", "employees", digits]
  {
    var parts := ["", "api", "employees", digits];
    ItemPathJoin(digits);
    SplitOfJoin(parts, '/');
    var path := "/api/employees/" + digits;
    assert path[0] == '/';
    assert DropTrailingEmpty(parts) == parts;
  }

  /** `/api/employees/{id}` reaches the item handlers with that id, for every `int` id. */
  lemma ItemRoute(verb: string, id: int)
    requires MinInt <= id <= MaxInt
    ensures var r := Decide(verb, Some("/api/employees/" + IntToString(id)));
            (verb == "GET" ==> r == GetOne(id)) &&
            (verb == "PUT" ==> r == Update(id)) &&
            (verb == "DELETE" ==> r == Delete(id)) &&
            (verb != "GET" && verb != "PUT" && verb != "DELETE" ==> r == MethodNotAllowed)
  {
    var digits := IntToString(id);
    var path := "/api/employees/" + digits;
    IntToStringChars(id);
    assert '/' !in digits;
    ItemPathSplits(digits);
    assert !IsCollection(path) by {
      assert |path| > |"/api/employees/"|;
    }
    IntRoundTrip(id);
  }

  // ----- the PUT merge -----

  function Lookup(p: Params, key: string): Option<string>
  {
    if key in p then Some(p[key]) else None
  }

  /** Whether `p` supplies a readable number for `key`. */
  predicate SuppliesAmount(p: Params, key: string, parse: string -> Option<Decimal>)
  {
    key in p && p[key] != "" && parse(p[key]).Some?
  }

  /**
   * What `handleUpdate` writes back into `existing`: a supplied name or
   * designation replaces the old one even when empty; a supplied readable
   * amount replaces the old one; everything else, the id included, is kept.
   */
  function HttpMerged(s: Snapshot, p: Params, parse: string -> Option<Decimal>): (r: Snapshot)
    ensures r.id == s.id
    ensures r.name == (if "name" in p then Some(p["name"]) else s.name)
    ensures r.designation == (if "designation" in p then Some(p["designation"]) else s.designation)
    ensures r.basicSalary == Some(if SuppliesAmount(p, "basic_salary", parse) then parse(p["basic_salary"]).value else Safe(s.basicSalary))
    ensures r.hra == Some(if SuppliesAmount(p, "hra", parse) then parse(p["hra"]).value else Safe(s.hra))
    ensures r.da == Some(if SuppliesAmount(p, "da", parse) then parse(p["da"]).value else Safe(s.da))
    ensures r.deductions == Some(if SuppliesAmount(p, "deductions", parse) then parse(p["deductions"]).value else Safe(s.deductions))
  {
    Snapshot(
      s.id,
      if "name" in p then Some(p["name"]) else s.name,
      if "designation" in p then Some(p["designation"]) else s.designation,
      Some(Safe(ParseDecimalOrDefault(Lookup(p, "basic_salary"), s.basicSalary, parse))),
      Some(Safe(ParseDecimalOrDefault(Lookup(p, "hra"), s.hra, parse))),
      Some(Safe(ParseDecimalOrDefault(Lookup(p, "da"), s.da, parse))),
      Some(Safe(ParseDecimalOrDefault(Lookup(p, "deductions"), s.deductions, parse))))
  }

  /** Merging the same parameters twice is merging them once. */
  lemma HttpMergeIdempotent(s: Snapshot, p: Params, parse: string -> Option<Decimal>)
    ensures HttpMerged(HttpMerged(s, p, parse), p, parse) == HttpMerged(s, p, parse)
  {
  }

  /** A request without parameters leaves a loaded employee as it was. */
  lemma HttpMergeNothing(s: Snapshot, parse: string -> Option<Decimal>)
    requires s.AmountsPresent()
    ensures HttpMerged(s, map[], parse) == s
  {
  }

  /** The setter calls of `handleUpdate`. */
  method ApplyHttpMerge(existing: Employee, p: Params, parse: string -> Option<Decimal>)
    modifies existing
    ensures existing.State() == HttpMerged(old(existing.State()), p, parse)
  {
    var name := if "name" in p then Some(p["name"]) else existing.name;
    var designation := if "designation" in p then Some(p["designation"]) else existing.designation;
    var basic := ParseDecimalOrDefault(Lookup(p, "basic_salary"), existing.basicSalary, parse);
    var hra := ParseDecimalOrDefault(Lookup(p, "hra"), existing.hra, parse);
    var da := ParseDecimalOrDefault(Lookup(p, "da"), existing.da, parse);
    var deductions := ParseDecimalOrDefault(Lookup(p, "deductions"), existing.deductions, parse);
    existing.SetName(name);
    existing.SetDesignation(designation);
    existing.SetBasicSalary(basic);
    existing.SetHra(hra);
    existing.SetDa(da);
    existing.SetDeductions(deductions);
  }

  // ----- the handlers, as a function of the table -----

  /** The table's contents: its rows and its auto-increment counter. */
  datatype Store = Store(rows: map<int, Row>, nextId: int)

  predicate ValidStore(s: Store)
  {
    1 <= s.nextId && forall id :: id in s.rows ==> 1 <= id < s.nextId
  }

  function StoreOf(dao: EmployeeDAO): Store
    reads dao
  {
    Store(dao.rows, dao.nextId)
  }

  /** The employees `getAllEmployees` builds for the rows `ids`, in that order. */
  function Listed(rows: map<int, Row>, ids: seq<int>): (r: seq<Snapshot>)
    requires forall k :: k in ids ==> k in rows
    ensures |r| == |ids| && forall j :: 0 <= j < |ids| ==> r[j] == Loaded(ids[j], rows[ids[j]])
  {
    seq(|ids|, j requires 0 <= j < |ids| => Loaded(ids[j], rows[ids[j]]))
  }

  /** `f` applied to each element, in order. */
  function Mapped<A, B>(f: A -> B, xs: seq<A>): (r: seq<B>)
    ensures |r| == |xs|
  {
    seq(|xs|, j requires 0 <= j < |xs| => f(xs[j]))
  }

  lemma MappedSnoc<A, B>(f: A -> B, xs: seq<A>, i: nat)
    requires i < |xs|
    ensures Mapped(f, xs[..i + 1]) == Mapped(f, xs[..i]) + [f(xs[i])]
  {
  }

  /** The JSON object of each employee, in order. */
  function JsonItems(employees: seq<Snapshot>): (r: seq<string>)
    ensures |r| == |employees|
  {
    Mapped(EmployeeToJson, employees)
  }

  lemma JsonItemsSnoc(employees: seq<Snapshot>, i: nat)
    requires i < |employees|
    ensures JsonItems(employees[..i + 1]) == JsonItems(employees[..i]) + [EmployeeToJson(employees[i])]
  {
    MappedSnoc(EmployeeToJson, employees, i);
  }

  /** One more element of a JSON array under construction: a comma unless it is the first. */
  lemma ArrayStep(sb: string, items: seq<string>, item: string)
    requires sb == "[" + Join(items, ',')
    ensures (if items == [] then sb else sb + ",") + item == "[" + Join(items + [item], ',')
  {
    JoinSnoc(items, item, ',');
  }

  /** `handleList`: every row as a JSON object, ascending by id, in a JSON array. */
  function ListResponse(s: Store, unavailable: Option<string>): Response
  {
    if unavailable.Some? then Failure(unavailable.value)
    else JsonBody(200, "[" + Join(JsonItems(Listed(s.rows, KeysFrom(s.rows, 1, s.nextId))), ',') + "]")
  }

  /** `handleGetOne`. */
  function GetOneResponse(s: Store, unavailable: Option<string>, id: int): Response
  {
    if unavailable.Some? then Failure(unavailable.value)
    else if id !in s.rows then PlainText(404, "Not Found")
    else JsonBody(200, EmployeeToJson(Loaded(id, s.rows[id])))
  }

  /** The employee `readEmployeeFromParams(p, 0)` builds once every check has passed. */
  function CreatedFrom(p: Params, parse: string -> Option<Decimal>): Snapshot
    requires CreateProblem(p, parse).None?
  {
    Initial(0, Some(p["name"]), Some(p["designation"]), parse(p["basic_salary"]), parse(p["hra"]),
            parse(p["da"]), parse(p["deductions"]))
  }

  /** Whether `handleCreate` gets as far as inserting the row. */
  predicate CreateSucceeds(unavailable: Option<string>, params: Result<Params, string>,
                           parse: string -> Option<Decimal>)
  {
    params.Ok? && CreateProblem(params.value, parse).None? && unavailable.None?
  }

  /** `handleCreate`'s response: the new employee with its new id, or the first exception. */
  function CreateReply(s: Store, unavailable: Option<string>, params: Result<Params, string>,
                       parse: string -> Option<Decimal>): Response
  {
    match params
    case Err(msg) => Failure(msg)
    case Ok(p) =>
      match CreateProblem(p, parse)
      case Some(msg) => Failure(msg)
      case None =>
        if unavailable.Some? then Failure(unavailable.value)
        else JsonBody(201, EmployeeToJson(CreatedFrom(p, parse).(id := s.nextId)))
  }

  /** `handleCreate`'s effect: one new row under the counter, or nothing. */
  function CreateAfter(s: Store, unavailable: Option<string>, params: Result<Params, string>,
                       parse: string -> Option<Decimal>): Store
  {
    if CreateSucceeds(unavailable, params, parse) then
      Store(s.rows[s.nextId := RowOf(CreatedFrom(params.value, parse))], s.nextId + 1)
    else s
  }

  /** `handleUpdate`'s response: the id is looked up first, the body read second. */
  function UpdateReply(s: Store, unavailable: Option<string>, id: int, params: Result<Params, string>,
                       parse: string -> Option<Decimal>): Response
  {
    if unavailable.Some? then Failure(unavailable.value)
    else if id !in s.rows then PlainText(404, "Not Found")
    else
      match params
      case Err(msg) => Failure(msg)
      case Ok(p) => JsonBody(200, EmployeeToJson(HttpMerged(Loaded(id, s.rows[id]), p, parse)))
  }

  /** `handleUpdate`'s effect: the merged employee written over its row, or nothing. */
  function UpdateAfter(s: Store, unavailable: Option<string>, id: int, params: Result<Params, string>,
                       parse: string -> Option<Decimal>): Store
  {
    if unavailable.None? && id in s.rows && params.Ok? then
      s.(rows := s.rows[id := RowOf(HttpMerged(Loaded(id, s.rows[id]), params.value, parse))])
    else s
  }

  /** `handleDelete`'s response. */
  function DeleteReply(s: Store, unavailable: Option<string>, id: int): Response
  {
    if unavailable.Some? then Failure(unavailable.value)
    else if id !in s.rows then PlainText(404, "Not Found")
    else JsonBody(200, "{\"status\":\"deleted\"}")
  }

  /** `handleDelete`'s effect. */
  function DeleteAfter(s: Store, unavailable: Option<string>, id: int): Store
  {
    if unavailable.None? then s.(rows := s.rows - {id}) else s
  }

  datatype Request = Request(verb: string, path: Option<string>, contentType: Option<string>, body: string)

  /** `handle`: the response to a request. */
  function Reply(s: Store, unavailable: Option<string>, req: Request,
                 decode: string -> Result<string, string>, parse: string -> Option<Decimal>): Response
  {
    match Decide(req.verb, req.path)
    case List => ListResponse(s, unavailable)
    case Create => CreateReply(s, unavailable, ParamsOf(req.contentType, req.body, decode), parse)
    case GetOne(id) => GetOneResponse(s, unavailable, id)
    case Update(id) => UpdateReply(s, unavailable, id, ParamsOf(req.contentType, req.body, decode), parse)
    case Delete(id) => DeleteReply(s, unavailable, id)
    case InvalidId => PlainText(400, "Invalid ID")
    case MethodNotAllowed => PlainText(405, "Method Not Allowed")
    case NotFound => PlainText(404, "Not Found")
  }

  /** `handle`: the table after a request. */
  function After(s: Store, unavailable: Option<string>, req: Request,
                 decode: string -> Result<string, string>, parse: string -> Option<Decimal>): Store
  {
    RouteAfter(s, unavailable, Decide(req.verb, req.path), ParamsOf(req.contentType, req.body, decode), parse)
  }

  /** The table after the handler `route` picks has run on `params`. */
  function RouteAfter(s: Store, unavailable: Option<string>, route: Route, params: Result<Params, string>,
                      parse: string -> Option<Decimal>): Store
  {
    match route
    case Create => CreateAfter(s, unavailable, params, parse)
    case Update(id) => UpdateAfter(s, unavailable, id, params, parse)
    case Delete(id) => DeleteAfter(s, unavailable, id)
    case _ => s
  }

  // ----- properties of the handlers -----

  /** Every request keeps the table valid. */
  lemma RespondKeepsValid(s: Store, unavailable: Option<string>, req: Request,
                          decode: string -> Result<string, string>, parse: string -> Option<Decimal>)
    requires ValidStore(s)
    ensures ValidStore(After(s, unavailable, req, decode, parse))
  {
  }

  /** GET requests, and every request while the database is unreachable, leave the table as it was. */
  lemma ReadsChangeNothing(s: Store, unavailable: Option<string>, req: Request,
                           decode: string -> Result<string, string>, parse: string -> Option<Decimal>)
    requires req.verb == "GET" || unavailable.Some?
    ensures After(s, unavailable, req, decode, parse) == s
  {
  }

  /** A request changes no row other than the one it names, and never lowers the counter. */
  lemma OneRowAtATime(s: Store, unavailable: Option<string>, req: Request,
                      decode: string -> Result<string, string>, parse: string -> Option<Decimal>, k: int)
    requires ValidStore(s) && k in s.rows
    requires Decide(req.verb, req.path) != Update(k) && Decide(req.verb, req.path) != Delete(k)
    ensures k in After(s, unavailable, req, decode, parse).rows
    ensures After(s, unavailable, req, decode, parse).rows[k] == s.rows[k]
    ensures After(s, unavailable, req, decode, parse).nextId >= s.nextId
  {
    RouteKeepsRow(s, unavailable, Decide(req.verb, req.path), ParamsOf(req.contentType, req.body, decode), parse, k);
  }

  lemma RouteKeepsRow(s: Store, unavailable: Option<string>, route: Route, params: Result<Params, string>,
                      parse: string -> Option<Decimal>, k: int)
    requires ValidStore(s) && k in s.rows && route != Update(k) && route != Delete(k)
    ensures k in RouteAfter(s, unavailable, route, params, parse).rows
    ensures RouteAfter(s, unavailable, route, params, parse).rows[k] == s.rows[k]
    ensures RouteAfter(s, unavailable, route, params, parse).nextId >= s.nextId
  {
  }

  /** A successful POST adds exactly one row, under a key not in use, and answers 201. */
  lemma CreateAddsOne(s: Store, unavailable: Option<string>, params: Result<Params, string>,
                      parse: string -> Option<Decimal>)
    requires ValidStore(s) && CreateSucceeds(unavailable, params, parse)
    ensures s.nextId !in s.rows
    ensures CreateAfter(s, unavailable, params, parse).rows.Keys == s.rows.Keys + {s.nextId}
    ensures CreateReply(s, unavailable, params, parse).status == 201
  {
    assert CreateAfter(s, unavailable, params, parse).rows == s.rows[s.nextId := RowOf(CreatedFrom(params.value, parse))];
  }

  /** After a successful POST, a GET of the new id answers with the very JSON the POST returned. */
  lemma CreateThenGet(s: Store, p: Params, parse: string -> Option<Decimal>)
    requires CreateProblem(p, parse).None?
    ensures GetOneResponse(CreateAfter(s, None, Ok(p), parse), None, s.nextId)
            == JsonBody(200, CreateReply(s, None, Ok(p), parse).body)
  {
    var e := CreatedFrom(p, parse);
    StoreThenLoad(e, s.nextId);
  }

  /** After a successful PUT, a GET of the id answers with the very JSON the PUT returned. */
  lemma UpdateThenGet(s: Store, id: int, p: Params, parse: string -> Option<Decimal>)
    requires id in s.rows
    ensures UpdateReply(s, None, id, Ok(p), parse).status == 200
    ensures GetOneResponse(UpdateAfter(s, None, id, Ok(p), parse), None, id)
            == UpdateReply(s, None, id, Ok(p), parse)
  {
    var merged := HttpMerged(Loaded(id, s.rows[id]), p, parse);
    StoreThenLoad(merged, id);
  }

  /** After a successful DELETE, a GET of the id answers 404, and so does a second DELETE. */
  lemma DeleteThenGet(s: Store, id: int)
    requires id in s.rows
    ensures DeleteReply(s, None, id).status == 200
    ensures GetOneResponse(DeleteAfter(s, None, id), None, id) == PlainText(404, "Not Found")
    ensures DeleteReply(DeleteAfter(s, None, id), None, id) == PlainText(404, "Not Found")
  {
  }

  // ----- the handlers over the DAO -----

  /** The loop of `handleList`: the employees' JSON objects, comma-separated, in a JSON array. */
  method ArrayOf(employees: seq<Employee>, ghost states: seq<Snapshot>) returns (sb: string)
    requires |employees| == |states|
    requires forall j :: 0 <= j < |employees| ==> employees[j].State() == states[j]
    ensures sb == "[" + Join(JsonItems(states), ',') + "]"
  {
    sb := "[";
    var i := 0;
    while i < |employees|
      invariant 0 <= i <= |employees|
      invariant sb == "[" + Join(JsonItems(states[..i]), ',')
    {
      sb := AppendItem(sb, employees[i], states, i);
      i := i + 1;
    }
    assert states[..|employees|] == states;
    sb := sb + "]";
  }

  /** One turn of that loop: a comma unless it is the first object, then the object. */
  method AppendItem(sb: string, e: Employee, ghost states: seq<Snapshot>, i: nat) returns (r: string)
    requires i < |states| && e.State() == states[i]
    requires sb == "[" + Join(JsonItems(states[..i]), ',')
    ensures r == "[" + Join(JsonItems(states[..i + 1]), ',')
  {
    var item := EmployeeToJson(e.State());
    JsonItemsSnoc(states, i);
    ArrayStep(sb, JsonItems(states[..i]), item);
    r := if i > 0 then sb + "," else sb;
    r := r + item;
  }

  class EmployeeApiHandler {
    const dao: EmployeeDAO

    constructor (dao: EmployeeDAO)
      ensures this.dao == dao
    {
      this.dao := dao;
    }

    /** `handle`: the route decision, then the chosen handler; every exception becomes a 500. */
    method Handle(req: Request, decode: string -> Result<string, string>, parse: string -> Option<Decimal>)
      returns (r: Response)
      requires dao.Valid()
      modifies dao
      ensures dao.Valid()
      ensures r == Reply(old(StoreOf(dao)), dao.unavailable, req, decode, parse)
      ensures StoreOf(dao) == After(old(StoreOf(dao)), dao.unavailable, req, decode, parse)
    {
      match Decide(req.verb, req.path)
      case List => r := HandleList();
      case Create => r := HandleCreate(req.contentType, req.body, decode, parse);
      case GetOne(id) => r := HandleGetOne(id);
      case Update(id) => r := HandleUpdate(id, req.contentType, req.body, decode, parse);
      case Delete(id) => r := HandleDelete(id);
      case InvalidId => r := PlainText(400, "Invalid ID");
      case MethodNotAllowed => r := PlainText(405, "Method Not Allowed");
      case NotFound => r := PlainText(404, "Not Found");
    }

    /** `handleList`. */
    method HandleList() returns (r: Response)
      requires dao.Valid()
      ensures r == ListResponse(StoreOf(dao), dao.unavailable)
    {
      var all := dao.GetAllEmployees();
      if all.Err? {
        return Failure(all.error);
      }
      ghost var ids := KeysFrom(dao.rows, 1, dao.nextId);
      var json := ArrayOf(all.value, Listed(dao.rows, ids));
      return JsonBody(200, json);
    }

    /** `handleGetOne`. */
    method HandleGetOne(id: int) returns (r: Response)
      ensures r == GetOneResponse(StoreOf(dao), dao.unavailable, id)
    {
      var found := dao.GetEmployeeById(id);
      if found.Err? {
        return Failure(found.error);
      }
      if found.value.None? {
        return PlainText(404, "Not Found");
      }
      return JsonBody(200, EmployeeToJson(found.value.value.State()));
    }

    /** `handleCreate`: read the body, build the employee, insert it, echo it with its new id. */
    method HandleCreate(contentType: Option<string>, body: string, decode: string -> Result<string, string>,
                        parse: string -> Option<Decimal>) returns (r: Response)
      requires dao.Valid()
      modifies dao
      ensures dao.Valid()
      ensures r == CreateReply(old(StoreOf(dao)), dao.unavailable, ParamsOf(contentType, body, decode), parse)
      ensures StoreOf(dao) == CreateAfter(old(StoreOf(dao)), dao.unavailable, ParamsOf(contentType, body, decode), parse)
    {
      var params := ReadParams(contentType, body, decode);
      if params.Err? {
        return Failure(params.error);
      }
      var built := ReadEmployeeFromParams(params.value, 0, parse);
      if built.Err? {
        return Failure(built.error);
      }
      var employee := built.value;
      var added := dao.AddEmployee(employee);
      if added.Err? {
        return Failure(added.error);
      }
      return JsonBody(201, EmployeeToJson(employee.State()));
    }

    /** `handleUpdate`: load, merge the supplied parameters in, write back, echo. */
    method HandleUpdate(id: int, contentType: Option<string>, body: string,
                        decode: string -> Result<string, string>, parse: string -> Option<Decimal>)
      returns (r: Response)
      requires dao.Valid()
      modifies dao
      ensures dao.Valid()
      ensures r == UpdateReply(old(StoreOf(dao)), dao.unavailable, id, ParamsOf(contentType, body, decode), parse)
      ensures StoreOf(dao) == UpdateAfter(old(StoreOf(dao)), dao.unavailable, id, ParamsOf(contentType, body, decode), parse)
    {
      var found := dao.GetEmployeeById(id);
      if found.Err? {
        return Failure(found.error);
      }
      if found.value.None? {
        return PlainText(404, "Not Found");
      }
      var existing := found.value.value;
      var params := ReadParams(contentType, body, decode);
      if params.Err? {
        return Failure(params.error);
      }
      ApplyHttpMerge(existing, params.value, parse);
      var updated := dao.UpdateEmployee(existing);
      if updated.Err? {
        return Failure(updated.error);
      }
      return JsonBody(200, EmployeeToJson(existing.State()));
    }

    /** `handleDelete`. */
    method HandleDelete(id: int) returns (r: Response)
      requires dao.Valid()
      modifies dao
      ensures dao.Valid()
      ensures r == DeleteReply(old(StoreOf(dao)), dao.unavailable, id)
      ensures StoreOf(dao) == DeleteAfter(old(StoreOf(dao)), dao.unavailable, id)
    {
      var deleted := dao.DeleteEmployee(id);
      if deleted.Err? {
        return Failure(deleted.error);
      }
      if !deleted.value {
        return PlainText(404, "Not Found");
      }
      return JsonBody(200, "{\"status\":\"deleted\"}");
    }
  }
}
