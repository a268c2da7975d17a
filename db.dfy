/**
 * The data-access layer of the app (lib/db.ts) over an in-memory model of the
 * hosted backend: four tables (`todos`, `vehicles`, `maintenance`,
 * `maintenance_files`), the `maintenance` storage bucket as a set of object
 * paths, and the log of state-changing requests issued to the backend.
 *
 * Every remote call may fail; whether it does is an explicit argument of the
 * operation (`...Fails` flags, or for storage removals the set of paths whose
 * removal the storage service refuses). A failed request changes nothing.
 */
module Db {
  import opened Wrappers
  import opened Text
  import opened Tables

  // ------------------------------------------------------------------ columns

  datatype TodoData = TodoData(
    vehicleId: string, task: string, priority: string, dueDate: string,
    notes: string, kind: string, isComplete: bool)

  /** The argument of `createTodo`: `notes` and `type` may be left out. */
  datatype NewTodo = NewTodo(
    task: string, priority: string, dueDate: string, notes: Option<string>, kind: Option<string>)

  /** The argument of `updateTodo`: every column is optional; an absent one is not sent. */
  datatype TodoPatch = TodoPatch(
    task: Option<string>, priority: Option<string>, dueDate: Option<string>,
    notes: Option<string>, kind: Option<string>)

  datatype VehicleKind = Car | Bike

  datatype VehicleData = VehicleData(
    nickname: string, vehicleType: Option<string>, make: Option<string>, model: Option<string>,
    year: Option<int>, color: Option<string>, licensePlate: Option<string>,
    imageUrl: Option<string>, kind: VehicleKind, bgColor: string)

  /** The argument of `updateVehicle`: it has no `vehicle_type`. */
  datatype VehicleUpdate = VehicleUpdate(
    nickname: string, make: Option<string>, model: Option<string>, year: Option<int>,
    color: Option<string>, licensePlate: Option<string>, imageUrl: Option<string>,
    kind: VehicleKind, bgColor: string)

  /** A maintenance record; `datePerformed` is a day number, `receiptUrl` the legacy attachment column. */
  datatype MaintenanceData = MaintenanceData(
    vehicleId: string, title: string, description: Option<string>, maintenanceType: string,
    cost: Option<real>, mileage: Option<int>, datePerformed: int, nextDueDate: Option<string>,
    nextDueMileage: Option<int>, technician: Option<string>, receiptUrl: Option<string>)

  /** The argument of `createMaintenance`. */
  datatype NewMaintenance = NewMaintenance(
    title: string, description: Option<string>, maintenanceType: string, cost: Option<real>,
    mileage: Option<int>, datePerformed: int, nextDueDate: Option<string>,
    nextDueMileage: Option<int>, technician: Option<string>, receiptUrl: Option<string>)

  /** The argument of `updateMaintenance`: every column is optional. */
  datatype MaintenancePatch = MaintenancePatch(
    title: Option<string>, description: Option<string>, maintenanceType: Option<string>,
    cost: Option<real>, mileage: Option<int>, datePerformed: Option<int>,
    nextDueDate: Option<string>, nextDueMileage: Option<int>, technician: Option<string>,
    receiptUrl: Option<string>)

  /** A `maintenance_files` row: the record it belongs to, the public URL, the upload time. */
  datatype FileData = FileData(maintenanceId: string, fileUrl: string, uploadedAt: int)

  // ----------------------------------------------------------- backend model

  datatype DbError =
    | RequestFailed       // the transport or the backend reported an error
    | NotExactlyOneRow    // `.single()` saw zero rows or several
    | DuplicateKey        // the generated primary key is already taken

  datatype Table = Todos | Vehicles | Maintenance | MaintenanceFiles

  /** The row filter of an UPDATE or DELETE. */
  datatype Match =
    | ById(id: string)
    | ByIdAndOwner(id: string, userId: string)
    | ByMaintenanceAndOwner(maintenanceId: string, userId: string)

  /** A state-changing request sent to the backend. */
  datatype Request =
    | Insert(table: Table, id: string)
    | Update(table: Table, filter: Match)
    | Delete(table: Table, filter: Match)
    | RemoveObject(path: string)    // `storage.from("maintenance").remove([path])`

  /** `.single()`: the one row of a result, or an error when there is not exactly one. */
  function Single<T>(rows: seq<T>): (r: Result<T, DbError>)
    ensures r.Ok? <==> |rows| == 1
    ensures r.Ok? ==> r.value == rows[0]
    ensures r.Err? ==> r.error == NotExactlyOneRow
  {
    if |rows| == 1 then Ok(rows[0]) else Err(NotExactlyOneRow)
  }

  /** A column of an UPDATE payload: the new value when present, otherwise the current one. */
  function Or<T>(o: Option<T>, current: T): T
  {
    if o.Some? then o.value else current
  }

  /** The same for a nullable column. */
  function Keep<T>(o: Option<T>, current: Option<T>): Option<T>
  {
    if o.Some? then o else current
  }

  // ---------------------------------------------------------------- filters

  function OpenTodoOf(userId: string, vehicleId: string): Row<TodoData> -> bool
  {
    (r: Row<TodoData>) => r.userId == userId && r.data.vehicleId == vehicleId && !r.data.isComplete
  }

  function MaintenanceOf(userId: string, vehicleId: string): Row<MaintenanceData> -> bool
  {
    (r: Row<MaintenanceData>) => r.userId == userId && r.data.vehicleId == vehicleId
  }

  function FilesOf(maintenanceId: string, userId: string): Row<FileData> -> bool
  {
    (r: Row<FileData>) => r.data.maintenanceId == maintenanceId && r.userId == userId
  }

  function WithId<D>(id: string): Row<D> -> bool
  {
    (r: Row<D>) => r.id == id
  }

  function ByDatePerformed(r: Row<MaintenanceData>): int { r.data.datePerformed }

  function ByUploadedAt(r: Row<FileData>): int { r.data.uploadedAt }

  /** `getMaintenanceFiles`' query: the record's files of this owner, oldest upload first. */
  function FileListing(files: seq<Row<FileData>>, maintenanceId: string, userId: string): seq<Row<FileData>>
  {
    SortOn(Filter(files, FilesOf(maintenanceId, userId)), ByUploadedAt, true)
  }

  // ------------------------------------------------------- column defaults

  /** The row `createTodo` inserts: `notes || ""`, `type || "general"`, not complete. */
  function TodoFrom(vehicleId: string, t: NewTodo): (d: TodoData)
    ensures d.notes == (if t.notes.Some? then t.notes.value else "")
    ensures d.kind != ""
    ensures d.kind == (if t.kind.Some? && t.kind.value != "" then t.kind.value else "general")
    ensures !d.isComplete && d.vehicleId == vehicleId && d.task == t.task
    ensures d.priority == t.priority && d.dueDate == t.dueDate
  {
    TodoData(vehicleId, t.task, t.priority, t.dueDate,
             Or(t.notes, ""),
             if t.kind.Some? && t.kind.value != "" then t.kind.value else "general",
             false)
  }

  /** The columns of `updateTodo`'s payload replace the task's; absent ones are not sent and stay. */
  function PatchTodo(d: TodoData, p: TodoPatch): (r: TodoData)
    ensures r.vehicleId == d.vehicleId && r.isComplete == d.isComplete
    ensures p == TodoPatch(None, None, None, None, None) ==> r == d
    ensures r.task == (if p.task.Some? then p.task.value else d.task)
    ensures r.priority == (if p.priority.Some? then p.priority.value else d.priority)
    ensures r.dueDate == (if p.dueDate.Some? then p.dueDate.value else d.dueDate)
    ensures r.notes == (if p.notes.Some? then p.notes.value else d.notes)
    ensures r.kind == (if p.kind.Some? then p.kind.value else d.kind)
  {
    d.(task := Or(p.task, d.task), priority := Or(p.priority, d.priority),
       dueDate := Or(p.dueDate, d.dueDate), notes := Or(p.notes, d.notes), kind := Or(p.kind, d.kind))
  }

  function CompleteTodoData(d: TodoData): TodoData { d.(isComplete := true) }

  /**
   * `updateVehicle`'s payload: the required columns are always written, an
   * optional column left out is kept, and `vehicle_type` is never touched.
   */
  function VehicleUpdated(d: VehicleData, u: VehicleUpdate): (r: VehicleData)
    ensures r.vehicleType == d.vehicleType
    ensures r.nickname == u.nickname && r.kind == u.kind && r.bgColor == u.bgColor
    ensures (u.make.None? && u.model.None? && u.year.None? && u.color.None? && u.licensePlate.None? && u.imageUrl.None?)
            ==> r == d.(nickname := u.nickname, kind := u.kind, bgColor := u.bgColor)
    ensures r.make == (if u.make.Some? then u.make else d.make)
    ensures r.model == (if u.model.Some? then u.model else d.model)
    ensures r.year == (if u.year.Some? then u.year else d.year)
    ensures r.color == (if u.color.Some? then u.color else d.color)
    ensures r.licensePlate == (if u.licensePlate.Some? then u.licensePlate else d.licensePlate)
    ensures r.imageUrl == (if u.imageUrl.Some? then u.imageUrl else d.imageUrl)
  {
    d.(nickname := u.nickname, make := Keep(u.make, d.make), model := Keep(u.model, d.model),
       year := Keep(u.year, d.year), color := Keep(u.color, d.color),
       licensePlate := Keep(u.licensePlate, d.licensePlate), imageUrl := Keep(u.imageUrl, d.imageUrl),
       kind := u.kind, bgColor := u.bgColor)
  }

  /** The row `createMaintenance` inserts: the given vehicle and every column of the argument as given. */
  function MaintenanceFrom(vehicleId: string, m: NewMaintenance): (r: MaintenanceData)
    ensures r.vehicleId == vehicleId && r.title == m.title && r.datePerformed == m.datePerformed
    ensures r.receiptUrl == m.receiptUrl && r.cost == m.cost
    ensures r.description == m.description && r.maintenanceType == m.maintenanceType
    ensures r.mileage == m.mileage && r.technician == m.technician
    ensures r.nextDueDate == m.nextDueDate && r.nextDueMileage == m.nextDueMileage
  {
    MaintenanceData(vehicleId, m.title, m.description, m.maintenanceType, m.cost, m.mileage,
                    m.datePerformed, m.nextDueDate, m.nextDueMileage, m.technician, m.receiptUrl)
  }

  /** The columns of `updateMaintenance`'s payload replace the record's; absent ones stay. */
  function PatchMaintenance(d: MaintenanceData, p: MaintenancePatch): (r: MaintenanceData)
    ensures r.vehicleId == d.vehicleId
    ensures p == MaintenancePatch(None, None, None, None, None, None, None, None, None, None) ==> r == d
    ensures r.title == (if p.title.Some? then p.title.value else d.title)
    ensures r.maintenanceType == (if p.maintenanceType.Some? then p.maintenanceType.value else d.maintenanceType)
    ensures r.datePerformed == (if p.datePerformed.Some? then p.datePerformed.value else d.datePerformed)
    ensures r.description == (if p.description.Some? then p.description else d.description)
    ensures r.cost == (if p.cost.Some? then p.cost else d.cost)
    ensures r.mileage == (if p.mileage.Some? then p.mileage else d.mileage)
    ensures r.nextDueDate == (if p.nextDueDate.Some? then p.nextDueDate else d.nextDueDate)
    ensures r.nextDueMileage == (if p.nextDueMileage.Some? then p.nextDueMileage else d.nextDueMileage)
    ensures r.technician == (if p.technician.Some? then p.technician else d.technician)
    ensures r.receiptUrl == (if p.receiptUrl.Some? then p.receiptUrl else d.receiptUrl)
  {
    d.(title := Or(p.title, d.title), description := Keep(p.description, d.description),
       maintenanceType := Or(p.maintenanceType, d.maintenanceType), cost := Keep(p.cost, d.cost),
       mileage := Keep(p.mileage, d.mileage), datePerformed := Or(p.datePerformed, d.datePerformed),
       nextDueDate := Keep(p.nextDueDate, d.nextDueDate),
       nextDueMileage := Keep(p.nextDueMileage, d.nextDueMileage),
       technician := Keep(p.technician, d.technician), receiptUrl := Keep(p.receiptUrl, d.receiptUrl))
  }

  // ------------------------------------------------- URL -> storage path

  /** The fixed text that precedes the object path in a public storage URL. */
  const PublicMarker: string := "/storage/v1/object/public/"

  /** `url.split("/storage/v1/object/public/")[1]`, kept only when it is non-empty text. */
  function StoragePath(url: string): (r: Option<string>)
    ensures r.Some? ==> r.value != "" && !Occurs(r.value, PublicMarker)
    ensures !Occurs(url, PublicMarker) ==> r.None?
  {
    SplitPiecesFree(url, PublicMarker);
    var parts := Split(url, PublicMarker);
    if |parts| > 1 && parts[1] != "" then Some(parts[1]) else None
  }

  /**
   * A path is extracted only from a URL that contains the marker followed by
   * non-empty text: the URL is the text before its first marker, that marker,
   * the path, and then nothing or the next marker. The path has no marker in it.
   */
  lemma StoragePathShape(url: string)
    requires StoragePath(url).Some?
    ensures var i := IndexOf(url, PublicMarker).value;
            var p := StoragePath(url).value;
            && p != "" && !Occurs(p, PublicMarker)
            && i + |PublicMarker| + |p| <= |url|
            && url == url[..i] + PublicMarker + p + url[i + |PublicMarker| + |p|..]
            && FirstAt(url, PublicMarker, i)
            && (url[i + |PublicMarker| + |p|..] == "" || OccursAt(url[i + |PublicMarker| + |p|..], PublicMarker, 0))
  {
    var parts := Split(url, PublicMarker);
    assert StoragePath(url).value == parts[1];
    SecondPiece(url, PublicMarker);
    var i := IndexOf(url, PublicMarker).value;
    var p := parts[1];
    var tail := url[i + |PublicMarker| + |p|..];
    if tail != "" {
      OccursAfterPrefix(p, tail, PublicMarker);
    }
  }

  /** Conversely, non-empty text between the first marker and the next one (or the end) is the path. */
  lemma StoragePathOf(before: string, path: string, after: string)
    requires FirstAt(before + PublicMarker + path + after, PublicMarker, |before|)
    requires path != ""
    requires (after == "" && !Occurs(path, PublicMarker)) || FirstAt(path + after, PublicMarker, |path|)
    ensures StoragePath(before + PublicMarker + path + after) == Some(path)
  {
    SecondPieceOf(before, PublicMarker, path, after);
  }

  /** The storage path a file row's URL yields, if any (`if (file.file_url)` then the split). */
  function PathOf(f: Row<FileData>): (r: Option<string>)
    ensures f.data.fileUrl == "" ==> r.None?
    ensures r.Some? ==> r.value != "" && !Occurs(r.value, PublicMarker) && Occurs(f.data.fileUrl, PublicMarker)
  {
    if f.data.fileUrl != "" then StoragePath(f.data.fileUrl) else None
  }

  /** The removal requests of `deleteMaintenance`'s loop: one per row that yields a path, in row order. */
  function RemovalRequests(files: seq<Row<FileData>>): (r: seq<Request>)
    ensures |r| <= |files|
    ensures forall k :: 0 <= k < |r| ==> r[k].RemoveObject? && r[k].path != ""
  {
    if files == [] then []
    else
      var last := files[|files| - 1];
      RemovalRequests(files[..|files| - 1]) + (if PathOf(last).Some? then [RemoveObject(PathOf(last).value)] else [])
  }

  /** The paths for which that loop issues a removal request. */
  function RemovalPaths(files: seq<Row<FileData>>): (r: set<string>)
    ensures forall p :: p in r ==> p != "" && !Occurs(p, PublicMarker)
  {
    if files == [] then {}
    else
      var last := files[|files| - 1];
      RemovalPaths(files[..|files| - 1]) + (if PathOf(last).Some? then {PathOf(last).value} else {})
  }

  /** Extending the rows by one adds that row's request and path, if it yields one. */
  lemma RemovalStep(rows: seq<Row<FileData>>, i: nat)
    requires i < |rows|
    ensures var extra := if PathOf(rows[i]).Some? then [RemoveObject(PathOf(rows[i]).value)] else [];
            RemovalRequests(rows[..i + 1]) == RemovalRequests(rows[..i]) + extra
    ensures var extra := if PathOf(rows[i]).Some? then {PathOf(rows[i]).value} else {};
            RemovalPaths(rows[..i + 1]) == RemovalPaths(rows[..i]) + extra
  {
    assert rows[..i + 1][..i] == rows[..i];
  }

  /** The loop requests removal of exactly the paths that some row's URL yields. */
  lemma {:induction false} RemovalPathsExact(files: seq<Row<FileData>>, p: string)
    ensures p in RemovalPaths(files) <==> exists k :: 0 <= k < |files| && PathOf(files[k]) == Some(p)
  {
    if files != [] {
      RemovalPathsExact(files[..|files| - 1], p);
      ExistsStep(files, row => PathOf(row) == Some(p));
    }
  }

  /** Removing two sets of paths, less the refused ones, one after the other. */
  lemma RemoveMore(b: set<string>, before: set<string>, extra: set<string>, refused: set<string>)
    ensures b - (before - refused) - (extra - refused) == b - ((before + extra) - refused)
  {
  }

  /** An element satisfying `f` is either among all elements but the last, or the last. */
  lemma ExistsStep<T>(xs: seq<T>, f: T -> bool)
    requires xs != []
    ensures var init := xs[..|xs| - 1];
            (exists k :: 0 <= k < |xs| && f(xs[k])) <==> (exists k :: 0 <= k < |init| && f(init[k])) || f(xs[|xs| - 1])
  {
    var init := xs[..|xs| - 1];
    if exists k :: 0 <= k < |init| && f(init[k]) {
      var k :| 0 <= k < |init| && f(init[k]);
      assert xs[k] == init[k];
    }
  }

  /** Every request of that loop is a storage removal of one of those paths, at most one per row. */
  lemma {:induction false} RemovalRequestsArePaths(files: seq<Row<FileData>>)
    ensures |RemovalRequests(files)| <= |files|
    ensures forall k :: 0 <= k < |RemovalRequests(files)| ==>
              RemovalRequests(files)[k].RemoveObject? && RemovalRequests(files)[k].path in RemovalPaths(files)
  {
    if files != [] {
      var init := files[..|files| - 1];
      RemovalRequestsArePaths(init);
      var last := files[|files| - 1];
      var reqs := RemovalRequests(files);
      assert reqs == RemovalRequests(init) + (if PathOf(last).Some? then [RemoveObject(PathOf(last).value)] else []);
      assert RemovalPaths(init) <= RemovalPaths(files);
      forall k | 0 <= k < |reqs|
        ensures reqs[k].RemoveObject? && reqs[k].path in RemovalPaths(files)
      {
        if k < |RemovalRequests(init)| {
          assert reqs[k] == RemovalRequests(init)[k];
        }
      }
    }
  }

  /** Every path of the loop is requested in the log, so each refused removal shows up there. */
  lemma {:induction false} RemovalPathsRequested(files: seq<Row<FileData>>, p: string)
    requires p in RemovalPaths(files)
    ensures RemoveObject(p) in RemovalRequests(files)
  {
    var init := files[..|files| - 1];
    if p in RemovalPaths(init) {
      RemovalPathsRequested(init, p);
    }
  }

  /** Rows without a URL, or whose URL yields no path, get no removal request. */
  lemma {:induction false} NoPathNoRequests(files: seq<Row<FileData>>)
    requires forall k :: 0 <= k < |files| ==> PathOf(files[k]).None?
    ensures RemovalRequests(files) == [] && RemovalPaths(files) == {}
  {
    if files != [] {
      NoPathNoRequests(files[..|files| - 1]);
    }
  }

  /** An empty listing means the table holds no file row of that record and owner. */
  lemma NoFileRows(files: seq<Row<FileData>>, maintenanceId: string, userId: string)
    requires Filter(files, FilesOf(maintenanceId, userId)) == []
    ensures forall k :: 0 <= k < |files| ==> files[k].data.maintenanceId != maintenanceId || files[k].userId != userId
  {
    forall k | 0 <= k < |files|
      ensures files[k].data.maintenanceId != maintenanceId || files[k].userId != userId
    {
      if FilesOf(maintenanceId, userId)(files[k]) {
        FilterComplete(files, FilesOf(maintenanceId, userId), k);
      }
    }
  }

  // ------------------------------------------------------- owner scoping

  /**
   * A DELETE filtered on the caller's `user_id` leaves every other owner's rows
   * of that table exactly as they were.
   */
  lemma OtherOwnersKeepRows<D>(rows: seq<Row<D>>, p: Row<D> -> bool, userId: string, other: string)
    requires other != userId
    requires forall r :: p(r) ==> r.userId == userId
    ensures Filter(Filter(rows, Not(p)), OwnedBy(other)) == Filter(rows, OwnedBy(other))
  {
    FilterKeepsUntouched(rows, Not(p), OwnedBy(other));
  }

  /**
   * `deleteVehicle` filters on the id only: a vehicle of the table survives
   * exactly when its id differs, whoever owns it, so another owner's vehicle
   * with that id is removed as well.
   */
  lemma DeleteVehicleIgnoresOwner(vehicles: seq<Row<VehicleData>>, vehicleId: string)
    ensures var after := Filter(vehicles, Not(WithId(vehicleId)));
            forall k :: 0 <= k < |vehicles| ==> (vehicles[k] in after <==> vehicles[k].id != vehicleId)
  {
    var after := Filter(vehicles, Not(WithId(vehicleId)));
    forall k | 0 <= k < |vehicles|
      ensures vehicles[k] in after <==> vehicles[k].id != vehicleId
    {
      if vehicles[k].id != vehicleId {
        FilterComplete(vehicles, Not(WithId(vehicleId)), k);
      }
    }
  }

  /**
   * A file row just inserted is listed by `getMaintenanceFiles` for its record
   * and owner; the listing holds only rows of that record and owner, oldest first.
   */
  lemma AddedFileListed(files: seq<Row<FileData>>, row: Row<FileData>)
    ensures var listing := FileListing(files + [row], row.data.maintenanceId, row.userId);
            && row in listing
            && SortedOn(listing, ByUploadedAt, true)
            && (forall k :: 0 <= k < |listing| ==>
                  listing[k].data.maintenanceId == row.data.maintenanceId && listing[k].userId == row.userId)
            && multiset(listing) == multiset(FileListing(files, row.data.maintenanceId, row.userId)) + multiset{row}
  {
    var p := FilesOf(row.data.maintenanceId, row.userId);
    FilterOfAppend(files, row, p);
    var listing := FileListing(files + [row], row.data.maintenanceId, row.userId);
    assert multiset(listing) == multiset(Filter(files, p)) + multiset{row};
    assert row in multiset(listing);
    forall k | 0 <= k < |listing|
      ensures listing[k].data.maintenanceId == row.data.maintenanceId && listing[k].userId == row.userId
    {
      assert listing[k] in multiset(Filter(files + [row], p));
      var j :| 0 <= j < |Filter(files + [row], p)| && Filter(files + [row], p)[j] == listing[k];
    }
  }

  // ============================================================== the layer

  class Database {
    var todos: seq<Row<TodoData>>
    var vehicles: seq<Row<VehicleData>>
    var maintenance: seq<Row<MaintenanceData>>
    var maintenanceFiles: seq<Row<FileData>>
    /** Object paths present in the `maintenance` storage bucket. */
    var bucket: set<string>
    /** State-changing requests issued so far, in order, whether or not they succeeded. */
    var requests: seq<Request>

    constructor ()
      ensures todos == [] && vehicles == [] && maintenance == [] && maintenanceFiles == []
      ensures bucket == {} && requests == []
    {
      todos, vehicles, maintenance, maintenanceFiles := [], [], [], [];
      bucket, requests := {}, [];
    }

    /**
     * `storage.from("maintenance").remove([path])`. Removing a path that is not
     * there is not an error; a refused removal reports an error and removes nothing.
     */
    method RemoveObjectAt(path: string, refused: bool) returns (ok: bool)
      modifies this`requests, this`bucket
      ensures requests == old(requests) + [RemoveObject(path)]
      ensures bucket == if refused then old(bucket) else old(bucket) - {path}
      ensures ok == !refused
    {
      requests := requests + [RemoveObject(path)];
      if refused { return false; }
      bucket := bucket - {path};
      ok := true;
    }

    // ----------------------------------------------------------- todos

    /** `getTodos`: the caller's open tasks for one vehicle. */
    method GetTodos(userId: string, vehicleId: string, fails: bool) returns (r: Result<seq<Row<TodoData>>, DbError>)
      ensures fails <==> r.Err?
      ensures r.Ok? ==> r.value == Filter(todos, OpenTodoOf(userId, vehicleId))
      ensures r.Ok? ==> forall k :: 0 <= k < |r.value| ==>
                r.value[k].userId == userId && r.value[k].data.vehicleId == vehicleId && !r.value[k].data.isComplete
    {
      if fails { return Err(RequestFailed); }
      r := Ok(Filter(todos, OpenTodoOf(userId, vehicleId)));
    }

    /** `getTodoById`: the caller's task with that id; another owner's task is "no row". */
    method GetTodoById(taskId: string, userId: string, fails: bool) returns (r: Result<Row<TodoData>, DbError>)
      ensures fails ==> r == Err(RequestFailed)
      ensures !fails ==> r == Single(Filter(todos, IdAndOwner(taskId, userId)))
      ensures r.Ok? ==> r.value in todos && r.value.id == taskId && r.value.userId == userId
    {
      if fails { return Err(RequestFailed); }
      r := Single(Filter(todos, IdAndOwner(taskId, userId)));
      if r.Ok? { FilterMember(todos, IdAndOwner(taskId, userId), 0); }
    }

    /** `createTodo`: inserts one open task owned by the caller. */
    method CreateTodo(userId: string, vehicleId: string, t: NewTodo, newId: string, fails: bool)
      returns (r: Result<Row<TodoData>, DbError>)
      modifies this`requests, this`todos
      ensures requests == old(requests) + [Insert(Todos, newId)]
      ensures r.Ok? <==> !fails && !HasId(old(todos), newId)
      ensures r.Ok? ==> r.value == Row(newId, userId, TodoFrom(vehicleId, t)) && todos == old(todos) + [r.value]
      ensures r.Err? ==> todos == old(todos)
    {
      requests := requests + [Insert(Todos, newId)];
      if fails { return Err(RequestFailed); }
      if HasId(todos, newId) { return Err(DuplicateKey); }
      var row := Row(newId, userId, TodoFrom(vehicleId, t));
      todos := todos + [row];
      r := Ok(row);
    }

    /** The shared shape of `completeTodo` and `updateTodo`: an owner-scoped UPDATE then `.single()`. */
    method UpdateTodoRows(taskId: string, userId: string, f: TodoData -> TodoData, fails: bool)
      returns (r: Result<Row<TodoData>, DbError>)
      modifies this`requests, this`todos
      ensures requests == old(requests) + [Update(Todos, ByIdAndOwner(taskId, userId))]
      ensures fails ==> r == Err(RequestFailed) && todos == old(todos)
      ensures !fails ==> todos == UpdateWhere(old(todos), IdAndOwner(taskId, userId), f)
                         && r == Single(Filter(todos, IdAndOwner(taskId, userId)))
      ensures |todos| == |old(todos)|
      ensures forall k :: 0 <= k < |todos| && (todos[k].id != taskId || todos[k].userId != userId) ==>
                todos[k] == old(todos)[k]
    {
      requests := requests + [Update(Todos, ByIdAndOwner(taskId, userId))];
      if fails { return Err(RequestFailed); }
      todos := UpdateWhere(todos, IdAndOwner(taskId, userId), f);
      r := Single(Filter(todos, IdAndOwner(taskId, userId)));
    }

    /** `completeTodo`: marks the caller's task complete. */
    method CompleteTodo(taskId: string, userId: string, fails: bool) returns (r: Result<Row<TodoData>, DbError>)
      modifies this`requests, this`todos
      ensures requests == old(requests) + [Update(Todos, ByIdAndOwner(taskId, userId))]
      ensures fails ==> r == Err(RequestFailed) && todos == old(todos)
      ensures !fails ==> todos == UpdateWhere(old(todos), IdAndOwner(taskId, userId), CompleteTodoData)
                         && r == Single(Filter(todos, IdAndOwner(taskId, userId)))
      ensures r.Ok? ==> r.value.data.isComplete && r.value.id == taskId && r.value.userId == userId
      // the returned row is the caller's old task, now complete
      ensures r.Ok? ==> exists j :: 0 <= j < |old(todos)| && old(todos)[j].id == taskId && old(todos)[j].userId == userId
                          && r.value == Row(taskId, userId, CompleteTodoData(old(todos)[j].data))
      ensures forall k :: 0 <= k < |todos| && (todos[k].id != taskId || todos[k].userId != userId) ==>
                todos[k] == old(todos)[k]
    {
      r := UpdateTodoRows(taskId, userId, CompleteTodoData, fails);
      if r.Ok? {
        UpdatedRowReturned(old(todos), taskId, userId, CompleteTodoData, 0);
      }
    }

    /** `updateTodo`: rewrites the columns present in the patch of the caller's task. */
    method UpdateTodo(taskId: string, userId: string, p: TodoPatch, fails: bool) returns (r: Result<Row<TodoData>, DbError>)
      modifies this`requests, this`todos
      ensures requests == old(requests) + [Update(Todos, ByIdAndOwner(taskId, userId))]
      ensures fails ==> r == Err(RequestFailed) && todos == old(todos)
      ensures !fails ==> todos == UpdateWhere(old(todos), IdAndOwner(taskId, userId), d => PatchTodo(d, p))
                         && r == Single(Filter(todos, IdAndOwner(taskId, userId)))
      ensures r.Ok? ==> r.value.id == taskId && r.value.userId == userId
      // the returned row is the caller's old task with the patch applied
      ensures r.Ok? ==> exists j :: 0 <= j < |old(todos)| && old(todos)[j].id == taskId && old(todos)[j].userId == userId
                          && r.value == Row(taskId, userId, PatchTodo(old(todos)[j].data, p))
      ensures forall k :: 0 <= k < |todos| && (todos[k].id != taskId || todos[k].userId != userId) ==>
                todos[k] == old(todos)[k]
    {
      r := UpdateTodoRows(taskId, userId, d => PatchTodo(d, p), fails);
      if r.Ok? {
        UpdatedRowReturned(old(todos), taskId, userId, d => PatchTodo(d, p), 0);
      }
    }

    /** `deleteTodo`: deletes the caller's task with that id, if any. */
    method DeleteTodo(taskId: string, userId: string, fails: bool) returns (r: Result<(), DbError>)
      modifies this`requests, this`todos
      ensures requests == old(requests) + [Delete(Todos, ByIdAndOwner(taskId, userId))]
      ensures r.Ok? <==> !fails
      ensures todos == if fails then old(todos) else Filter(old(todos), Not(IdAndOwner(taskId, userId)))
    {
      requests := requests + [Delete(Todos, ByIdAndOwner(taskId, userId))];
      if fails { return Err(RequestFailed); }
      todos := Filter(todos, Not(IdAndOwner(taskId, userId)));
      r := Ok(());
    }

    // -------------------------------------------------------- vehicles

    /** `getVehicles`: all of the caller's vehicles. */
    method GetVehicles(userId: string, fails: bool) returns (r: Result<seq<Row<VehicleData>>, DbError>)
      ensures fails <==> r.Err?
      ensures r.Ok? ==> r.value == Filter(vehicles, OwnedBy(userId))
      ensures r.Ok? ==> forall k :: 0 <= k < |r.value| ==> r.value[k].userId == userId
    {
      if fails { return Err(RequestFailed); }
      r := Ok(Filter(vehicles, OwnedBy(userId)));
    }

    /** `getVehicleById`: the caller's vehicle with that id. */
    method GetVehicleById(vehicleId: string, userId: string, fails: bool) returns (r: Result<Row<VehicleData>, DbError>)
      ensures fails ==> r == Err(RequestFailed)
      ensures !fails ==> r == Single(Filter(vehicles, IdAndOwner(vehicleId, userId)))
      ensures r.Ok? ==> r.value in vehicles && r.value.id == vehicleId && r.value.userId == userId
    {
      if fails { return Err(RequestFailed); }
      r := Single(Filter(vehicles, IdAndOwner(vehicleId, userId)));
      if r.Ok? { FilterMember(vehicles, IdAndOwner(vehicleId, userId), 0); }
    }

    /** `createVehicle`: inserts one vehicle owned by the caller. */
    method CreateVehicle(userId: string, v: VehicleData, newId: string, fails: bool)
      returns (r: Result<Row<VehicleData>, DbError>)
      modifies this`requests, this`vehicles
      ensures requests == old(requests) + [Insert(Vehicles, newId)]
      ensures r.Ok? <==> !fails && !HasId(old(vehicles), newId)
      ensures r.Ok? ==> r.value == Row(newId, userId, v) && vehicles == old(vehicles) + [r.value]
      ensures r.Err? ==> vehicles == old(vehicles)
    {
      requests := requests + [Insert(Vehicles, newId)];
      if fails { return Err(RequestFailed); }
      if HasId(vehicles, newId) { return Err(DuplicateKey); }
      var row := Row(newId, userId, v);
      vehicles := vehicles + [row];
      r := Ok(row);
    }

    /** `updateVehicle`: rewrites the caller's vehicle; absent optional columns are kept. */
    method UpdateVehicle(vehicleId: string, userId: string, u: VehicleUpdate, fails: bool)
      returns (r: Result<Row<VehicleData>, DbError>)
      modifies this`requests, this`vehicles
      ensures requests == old(requests) + [Update(Vehicles, ByIdAndOwner(vehicleId, userId))]
      ensures fails ==> r == Err(RequestFailed) && vehicles == old(vehicles)
      ensures !fails ==> vehicles == UpdateWhere(old(vehicles), IdAndOwner(vehicleId, userId), d => VehicleUpdated(d, u))
                         && r == Single(Filter(vehicles, IdAndOwner(vehicleId, userId)))
      ensures r.Ok? ==> r.value.id == vehicleId && r.value.userId == userId && r.value.data.nickname == u.nickname
      ensures forall k :: 0 <= k < |vehicles| && (vehicles[k].id != vehicleId || vehicles[k].userId != userId) ==>
                vehicles[k] == old(vehicles)[k]
    {
      requests := requests + [Update(Vehicles, ByIdAndOwner(vehicleId, userId))];
      if fails { return Err(RequestFailed); }
      vehicles := UpdateWhere(vehicles, IdAndOwner(vehicleId, userId), d => VehicleUpdated(d, u));
      r := Single(Filter(vehicles, IdAndOwner(vehicleId, userId)));
      if r.Ok? {
        UpdatedRowReturned(old(vehicles), vehicleId, userId, d => VehicleUpdated(d, u), 0);
      }
    }

    /** `deleteVehicle`: deletes the vehicle with that id, whoever owns it. */
    method DeleteVehicle(vehicleId: string, fails: bool) returns (r: Result<(), DbError>)
      modifies this`requests, this`vehicles
      ensures requests == old(requests) + [Delete(Vehicles, ById(vehicleId))]
      ensures r.Ok? <==> !fails
      ensures vehicles == if fails then old(vehicles) else Filter(old(vehicles), Not(WithId(vehicleId)))
    {
      requests := requests + [Delete(Vehicles, ById(vehicleId))];
      if fails { return Err(RequestFailed); }
      vehicles := Filter(vehicles, Not(WithId(vehicleId)));
      r := Ok(());
    }

    // ------------------------------------------------------ maintenance

    /** `getMaintenance`: the caller's records for one vehicle, most recently performed first. */
    method GetMaintenance(userId: string, vehicleId: string, fails: bool)
      returns (r: Result<seq<Row<MaintenanceData>>, DbError>)
      ensures fails <==> r.Err?
      ensures r.Ok? ==> r.value == SortOn(Filter(maintenance, MaintenanceOf(userId, vehicleId)), ByDatePerformed, false)
      ensures r.Ok? ==> SortedOn(r.value, ByDatePerformed, false)
      ensures r.Ok? ==> multiset(r.value) == multiset(Filter(maintenance, MaintenanceOf(userId, vehicleId)))
      ensures r.Ok? ==> forall k :: 0 <= k < |r.value| ==>
                r.value[k].userId == userId && r.value[k].data.vehicleId == vehicleId
    {
      if fails { return Err(RequestFailed); }
      var rows := Filter(maintenance, MaintenanceOf(userId, vehicleId));
      r := Ok(SortOn(rows, ByDatePerformed, false));
      forall k | 0 <= k < |r.value|
        ensures r.value[k].userId == userId && r.value[k].data.vehicleId == vehicleId
      {
        assert r.value[k] in multiset(rows);
      }
    }

    /** `getMaintenanceById`: the caller's record with that id. */
    method GetMaintenanceById(maintenanceId: string, userId: string, fails: bool)
      returns (r: Result<Row<MaintenanceData>, DbError>)
      ensures fails ==> r == Err(RequestFailed)
      ensures !fails ==> r == Single(Filter(maintenance, IdAndOwner(maintenanceId, userId)))
      ensures r.Ok? ==> r.value in maintenance && r.value.id == maintenanceId && r.value.userId == userId
    {
      if fails { return Err(RequestFailed); }
      r := Single(Filter(maintenance, IdAndOwner(maintenanceId, userId)));
      if r.Ok? { FilterMember(maintenance, IdAndOwner(maintenanceId, userId), 0); }
    }

    /** `createMaintenance`: inserts one record owned by the caller for the vehicle. */
    method CreateMaintenance(userId: string, vehicleId: string, m: NewMaintenance, newId: string, fails: bool)
      returns (r: Result<Row<MaintenanceData>, DbError>)
      modifies this`requests, this`maintenance
      ensures requests == old(requests) + [Insert(Maintenance, newId)]
      ensures r.Ok? <==> !fails && !HasId(old(maintenance), newId)
      ensures r.Ok? ==> r.value == Row(newId, userId, MaintenanceFrom(vehicleId, m))
                        && maintenance == old(maintenance) + [r.value]
      ensures r.Err? ==> maintenance == old(maintenance)
    {
      requests := requests + [Insert(Maintenance, newId)];
      if fails { return Err(RequestFailed); }
      if HasId(maintenance, newId) { return Err(DuplicateKey); }
      var row := Row(newId, userId, MaintenanceFrom(vehicleId, m));
      maintenance := maintenance + [row];
      r := Ok(row);
    }

    /** `updateMaintenance`: rewrites the columns present in the patch of the caller's record. */
    method UpdateMaintenance(maintenanceId: string, userId: string, p: MaintenancePatch, fails: bool)
      returns (r: Result<Row<MaintenanceData>, DbError>)
      modifies this`requests, this`maintenance
      ensures requests == old(requests) + [Update(Maintenance, ByIdAndOwner(maintenanceId, userId))]
      ensures fails ==> r == Err(RequestFailed) && maintenance == old(maintenance)
      ensures !fails ==> maintenance == UpdateWhere(old(maintenance), IdAndOwner(maintenanceId, userId), d => PatchMaintenance(d, p))
                         && r == Single(Filter(maintenance, IdAndOwner(maintenanceId, userId)))
      ensures r.Ok? ==> r.value.id == maintenanceId && r.value.userId == userId
      ensures forall k :: 0 <= k < |maintenance| && (maintenance[k].id != maintenanceId || maintenance[k].userId != userId) ==>
                maintenance[k] == old(maintenance)[k]
    {
      requests := requests + [Update(Maintenance, ByIdAndOwner(maintenanceId, userId))];
      if fails { return Err(RequestFailed); }
      maintenance := UpdateWhere(maintenance, IdAndOwner(maintenanceId, userId), d => PatchMaintenance(d, p));
      r := Single(Filter(maintenance, IdAndOwner(maintenanceId, userId)));
    }

    /**
     * The loop of `deleteMaintenance` over the record's file rows: a storage
     * removal request for each row whose URL yields a path, in row order.
     */
    method RemoveFileObjects(rows: seq<Row<FileData>>, refused: set<string>)
      modifies this`requests, this`bucket
      ensures requests == old(requests) + RemovalRequests(rows)
      ensures bucket == old(bucket) - (RemovalPaths(rows) - refused)
    {
      var i := 0;
      while i < |rows|
        invariant 0 <= i <= |rows|
        invariant requests == old(requests) + RemovalRequests(rows[..i])
        invariant bucket == old(bucket) - (RemovalPaths(rows[..i]) - refused)
      {
        // a URL, then a non-empty path split out of it
        var storagePath := PathOf(rows[i]);
        ghost var extra: set<string> := if storagePath.Some? then {storagePath.value} else {};
        if storagePath.Some? {
          // a removal error is only logged
          var _ := RemoveObjectAt(storagePath.value, storagePath.value in refused);
        }
        assert bucket == old(bucket) - (RemovalPaths(rows[..i]) - refused) - (extra - refused);
        RemovalStep(rows, i);
        RemoveMore(old(bucket), RemovalPaths(rows[..i]), extra, refused);
        i := i + 1;
      }
      assert rows[..|rows|] == rows;
    }

    /**
     * The file part of `deleteMaintenance`: list the record's file rows; if
     * there are any, request storage removal for each row whose URL yields a
     * path (a failed removal is only logged), then delete all the record's file
     * rows in one request (a failure is only logged).
     */
    method DeleteFileRows(maintenanceId: string, userId: string, listFails: bool, refused: set<string>,
                          bulkDeleteFails: bool)
      modifies this`requests, this`bucket, this`maintenanceFiles
      ensures var files := Filter(old(maintenanceFiles), FilesOf(maintenanceId, userId));
              var cascade := !listFails && |files| > 0;
              && requests == old(requests)
                   + (if cascade then RemovalRequests(files) + [Delete(MaintenanceFiles, ByMaintenanceAndOwner(maintenanceId, userId))] else [])
              && bucket == (if cascade then old(bucket) - (RemovalPaths(files) - refused) else old(bucket))
              && maintenanceFiles == (if cascade && !bulkDeleteFails
                                      then Filter(old(maintenanceFiles), Not(FilesOf(maintenanceId, userId)))
                                      else old(maintenanceFiles))
      ensures !listFails && !bulkDeleteFails ==> forall k :: 0 <= k < |maintenanceFiles| ==>
                maintenanceFiles[k].data.maintenanceId != maintenanceId || maintenanceFiles[k].userId != userId
    {
      var files: Option<seq<Row<FileData>>> :=
        if listFails then None else Some(Filter(maintenanceFiles, FilesOf(maintenanceId, userId)));
      if files.Some? && |files.value| > 0 {
        RemoveFileObjects(files.value, refused);
        requests := requests + [Delete(MaintenanceFiles, ByMaintenanceAndOwner(maintenanceId, userId))];
        if !bulkDeleteFails {
          maintenanceFiles := Filter(maintenanceFiles, Not(FilesOf(maintenanceId, userId)));
        }
      } else if !listFails {
        NoFileRows(maintenanceFiles, maintenanceId, userId);
      }
    }

    /**
     * `deleteMaintenance`: the cascade. Delete the record's files and file rows
     * (DeleteFileRows), then the record itself; only that last request's
     * failure reaches the caller.
     *
     * `listFails`: the listing returns no data. `refused`: paths whose removal
     * the storage service reports as failed. `bulkDeleteFails`, `deleteFails`:
     * the two DELETE requests fail.
     */
    method DeleteMaintenance(maintenanceId: string, userId: string, listFails: bool, refused: set<string>,
                             bulkDeleteFails: bool, deleteFails: bool)
      returns (r: Result<bool, DbError>)
      modifies this`requests, this`bucket, this`maintenanceFiles, this`maintenance
      ensures var files := Filter(old(maintenanceFiles), FilesOf(maintenanceId, userId));
              var cascade := !listFails && |files| > 0;
              && requests == old(requests)
                   + (if cascade then RemovalRequests(files) + [Delete(MaintenanceFiles, ByMaintenanceAndOwner(maintenanceId, userId))] else [])
                   + [Delete(Maintenance, ByIdAndOwner(maintenanceId, userId))]
              && bucket == (if cascade then old(bucket) - (RemovalPaths(files) - refused) else old(bucket))
              && maintenanceFiles == (if cascade && !bulkDeleteFails
                                      then Filter(old(maintenanceFiles), Not(FilesOf(maintenanceId, userId)))
                                      else old(maintenanceFiles))
      ensures maintenance == if deleteFails then old(maintenance)
                             else Filter(old(maintenance), Not(IdAndOwner(maintenanceId, userId)))
      ensures r == if deleteFails then Err(RequestFailed) else Ok(true)
      // the record is gone whatever happened to its files
      ensures !deleteFails ==> forall k :: 0 <= k < |maintenance| ==>
                maintenance[k].id != maintenanceId || maintenance[k].userId != userId
      // with a listing and a bulk delete that succeeded, none of its file rows remain
      ensures !listFails && !bulkDeleteFails ==> forall k :: 0 <= k < |maintenanceFiles| ==>
                maintenanceFiles[k].data.maintenanceId != maintenanceId || maintenanceFiles[k].userId != userId
    {
      DeleteFileRows(maintenanceId, userId, listFails, refused, bulkDeleteFails);
      requests := requests + [Delete(Maintenance, ByIdAndOwner(maintenanceId, userId))];
      if deleteFails {
        return Err(RequestFailed);
      }
      maintenance := Filter(maintenance, Not(IdAndOwner(maintenanceId, userId)));
      r := Ok(true);
    }

    // -------------------------------------------------- file attachments

    /** `addMaintenanceFile`: inserts exactly one file row for the record and owner. */
    method AddMaintenanceFile(maintenanceId: string, userId: string, fileUrl: string, newId: string, now: int, fails: bool)
      returns (r: Result<Row<FileData>, DbError>)
      modifies this`requests, this`maintenanceFiles
      ensures requests == old(requests) + [Insert(MaintenanceFiles, newId)]
      ensures r.Ok? <==> !fails && !HasId(old(maintenanceFiles), newId)
      ensures r.Ok? ==> r.value == Row(newId, userId, FileData(maintenanceId, fileUrl, now))
                        && maintenanceFiles == old(maintenanceFiles) + [r.value]
      ensures r.Err? ==> maintenanceFiles == old(maintenanceFiles)
    {
      requests := requests + [Insert(MaintenanceFiles, newId)];
      if fails { return Err(RequestFailed); }
      if HasId(maintenanceFiles, newId) { return Err(DuplicateKey); }
      var row := Row(newId, userId, FileData(maintenanceId, fileUrl, now));
      maintenanceFiles := maintenanceFiles + [row];
      r := Ok(row);
    }

    /** `getMaintenanceFiles`: the record's file rows of this owner, oldest upload first. */
    method GetMaintenanceFiles(maintenanceId: string, userId: string, fails: bool)
      returns (r: Result<seq<Row<FileData>>, DbError>)
      ensures fails <==> r.Err?
      ensures r.Ok? ==> r.value == FileListing(maintenanceFiles, maintenanceId, userId)
      ensures r.Ok? ==> SortedOn(r.value, ByUploadedAt, true)
      ensures r.Ok? ==> multiset(r.value) == multiset(Filter(maintenanceFiles, FilesOf(maintenanceId, userId)))
      ensures r.Ok? ==> forall k :: 0 <= k < |r.value| ==>
                r.value[k].data.maintenanceId == maintenanceId && r.value[k].userId == userId
    {
      if fails { return Err(RequestFailed); }
      var rows := Filter(maintenanceFiles, FilesOf(maintenanceId, userId));
      r := Ok(SortOn(rows, ByUploadedAt, true));
      forall k | 0 <= k < |r.value|
        ensures r.value[k].data.maintenanceId == maintenanceId && r.value[k].userId == userId
      {
        assert r.value[k] in multiset(rows);
      }
    }

    /**
     * `deleteMaintenanceFile`: fetch the caller's file row (an error here is
     * thrown before anything is removed), request storage removal of its path
     * if its URL yields one (a failure is only logged), then delete the row.
     */
    method DeleteMaintenanceFile(fileId: string, userId: string, fetchFails: bool, removeFails: bool, deleteFails: bool)
      returns (r: Result<bool, DbError>)
      modifies this`requests, this`bucket, this`maintenanceFiles
      ensures var found := Filter(old(maintenanceFiles), IdAndOwner(fileId, userId));
              if fetchFails || |found| != 1 then
                && r == Err(if fetchFails then RequestFailed else NotExactlyOneRow)
                && requests == old(requests) && bucket == old(bucket)
                && maintenanceFiles == old(maintenanceFiles)
              else
                var path := PathOf(found[0]);
                && requests == old(requests) + (if path.Some? then [RemoveObject(path.value)] else [])
                                             + [Delete(MaintenanceFiles, ByIdAndOwner(fileId, userId))]
                && bucket == (if path.Some? && !removeFails then old(bucket) - {path.value} else old(bucket))
                && maintenanceFiles == (if deleteFails then old(maintenanceFiles)
                                        else Filter(old(maintenanceFiles), Not(IdAndOwner(fileId, userId))))
                && r == (if deleteFails then Err(RequestFailed) else Ok(true))
    {
      if fetchFails { return Err(RequestFailed); }
      var fetched := Single(Filter(maintenanceFiles, IdAndOwner(fileId, userId)));
      if fetched.Err? { return Err(fetched.error); }
      var fileRecord := fetched.value;
      if fileRecord.data.fileUrl != "" {
        var storagePath := StoragePath(fileRecord.data.fileUrl);
        if storagePath.Some? {
          // a removal error is only logged
          var _ := RemoveObjectAt(storagePath.value, removeFails);
        }
      }
      requests := requests + [Delete(MaintenanceFiles, ByIdAndOwner(fileId, userId))];
      if deleteFails { return Err(RequestFailed); }
      maintenanceFiles := Filter(maintenanceFiles, Not(IdAndOwner(fileId, userId)));
      r := Ok(true);
    }
  }
}
