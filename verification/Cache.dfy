/**
  The cache-aside layer over the reference tables. A list is represented by what its query reads: the
  page number, the page size and the rows it selects from.
*/
module Cache {
  import opened Core
  import opened CacheKeys

  /** The columns of a row other than its id. */
  datatype Row = Row(name: string, details: string)

  datatype Role = Role(row: Row, grants: set<int>)

  datatype Camp = Camp(row: Row, active: bool)

  datatype Directory = Directory(
    permissions: map<int, Row>, roles: map<int, Role>, professions: map<int, Row>,
    resources: map<int, Row>, camps: map<int, Camp>, amounts: map<(int, int), int>)

  datatype RoleView = RoleView(row: Row, permissions: map<int, Row>)

  datatype Answer =
    | Single(row: Row) | Page(page: nat, limit: nat, rows: map<int, Row>)
    | SingleRole(role: RoleView) | RolePage(page: nat, limit: nat, roles: map<int, RoleView>)
    | SingleCamp(camp: Camp) | CampPage(page: nat, limit: nat, camps: map<int, Camp>)
    | Amounts(amounts: map<(int, int), (int, Row, Row)>)

  // ---------------------------------------------------------------------------------------------
  // Reads
  // ---------------------------------------------------------------------------------------------

  function View(permissions: map<int, Row>, role: Role): RoleView {
    RoleView(role.row, map p | p in role.grants && p in permissions :: permissions[p])
  }

  function Views(permissions: map<int, Row>, roles: map<int, Role>): map<int, RoleView> {
    map r | r in roles :: View(permissions, roles[r])
  }

  function Catalogue(amounts: map<(int, int), int>, professions: map<int, Row>, resources: map<int, Row>)
    : map<(int, int), (int, Row, Row)>
  {
    map k | k in amounts && k.0 in professions && k.1 in resources :: (amounts[k], professions[k.0], resources[k.1])
  }

  function Visible(camps: map<int, Camp>, only: Option<nat>): map<int, Camp> {
    map c | c in camps && (only.None? || c == only.value) :: camps[c]
  }

  function Active(camps: map<int, Camp>): map<int, Camp> {
    map c | c in camps && camps[c].active :: camps[c]
  }

  function Find(rows: map<int, Row>, id: int): Option<Answer> {
    if id in rows then Some(Single(rows[id])) else None
  }

  /** What the getter of a read returns now; `None` is a 404, which is never cached. */
  function Ask(d: Directory, q: Query): Option<Answer> {
    match q
    case OnePermission(id) => Find(d.permissions, id)
    case PermissionList(page, limit) => Some(Page(page, limit, d.permissions))
    case OneRole(id) => if id in d.roles then Some(SingleRole(View(d.permissions, d.roles[id]))) else None
    case RoleList(page, limit) => Some(RolePage(page, limit, Views(d.permissions, d.roles)))
    case OneProfession(id) => Find(d.professions, id)
    case ProfessionList(page, limit) => Some(Page(page, limit, d.professions))
    case ProfessionResources => Some(Amounts(Catalogue(d.amounts, d.professions, d.resources)))
    case OneResource(id) => Find(d.resources, id)
    case ResourceList(page, limit) => Some(Page(page, limit, d.resources))
    case OneCamp(id) => if id in d.camps then Some(SingleCamp(d.camps[id])) else None
    case CampList(page, limit, only) => Some(CampPage(page, limit, Visible(d.camps, only)))
    case CampCatalog => Some(CampPage(0, 0, Active(d.camps)))
  }

  // ---------------------------------------------------------------------------------------------
  // Writes
  // ---------------------------------------------------------------------------------------------

  datatype Table = PermissionTable | RoleTable | ProfessionTable | ResourceTable | CampTable

  datatype Write =
    | SavePermission(id: nat, row: Row)
    | SaveProfession(id: nat, row: Row)
    | SaveResource(id: nat, row: Row)
    | SaveRole(id: nat, row: Row, grants: Option<set<int>>)
    | SaveCamp(id: nat, camp: Camp)
    | Delete(table: Table, id: nat)

  function TableOf(w: Write): Table {
    match w
    case SavePermission(_, _) => PermissionTable
    case SaveProfession(_, _) => ProfessionTable
    case SaveResource(_, _) => ResourceTable
    case SaveRole(_, _, _) => RoleTable
    case SaveCamp(_, _) => CampTable
    case Delete(t, _) => t
  }

  /** The committed effect; foreign keys cascade to the link tables of permissions and professions. */
  function Apply(d: Directory, w: Write): Directory {
    match w
    case SavePermission(id, row) => d.(permissions := d.permissions[id := row])
    case SaveProfession(id, row) => d.(professions := d.professions[id := row])
    case SaveResource(id, row) => d.(resources := d.resources[id := row])
    case SaveRole(id, row, grants) =>
      var kept := if grants.Some? then grants.value else if id in d.roles then d.roles[id].grants else {};
      d.(roles := d.roles[id := Role(row, kept)])
    case SaveCamp(id, camp) => d.(camps := d.camps[id := camp])
    case Delete(PermissionTable, id) =>
      d.(permissions := d.permissions - {id},
         roles := map r | r in d.roles :: d.roles[r].(grants := d.roles[r].grants - {id}))
    case Delete(RoleTable, id) => d.(roles := d.roles - {id})
    case Delete(ProfessionTable, id) =>
      d.(professions := d.professions - {id}, amounts := map k | k in d.amounts && k.0 != id :: d.amounts[k])
    case Delete(ResourceTable, id) => d.(resources := d.resources - {id})
    case Delete(CampTable, id) => d.(camps := d.camps - {id})
  }

  /** Reads whose keys the matching `invalidate...Cache` deletes by name; an id of 0 would be skipped. */
  function NamedReads(t: Table, id: nat): set<Query> {
    var own := match t
      case PermissionTable => OnePermission(id)
      case RoleTable => OneRole(id)
      case ProfessionTable => OneProfession(id)
      case ResourceTable => OneResource(id)
      case CampTable => OneCamp(id);
    var catalog := match t
      case ProfessionTable => {ProfessionResources}
      case ResourceTable => {ProfessionResources}
      case CampTable => {CampCatalog}
      case _ => {};
    catalog + (if id != 0 then {own} else {})
  }

  function NamedKeys(t: Table, id: nat): set<string> {
    set q | q in NamedReads(t, id) :: KeyOf(q)
  }

  /** Key families it deletes by prefix, in order. */
  function Families(t: Table): seq<Family> {
    match t
    case PermissionTable => [PERMISSIONS, ROLES, ROLE]
    case RoleTable => [ROLES]
    case ProfessionTable => [PROFESSIONS]
    case ResourceTable => [RESOURCES]
    case CampTable => [CAMPS]
  }

  predicate Invalidates(t: Table, id: nat, key: string) {
    key in NamedKeys(t, id) || exists f | f in Families(t) :: Head(f) <= key
  }

  /** The reads a write invalidates, told without strings. */
  predicate Concerns(t: Table, id: nat, q: Query) {
    q in NamedReads(t, id) || FamilyOf(q) in Families(t)
  }

  /** Deleting by key text hits exactly the reads the write concerns: no family shadows another. */
  lemma InvalidatesExactly(t: Table, id: nat, q: Query)
    ensures Invalidates(t, id, KeyOf(q)) <==> Concerns(t, id, q)
  {
    forall f: Family ensures Head(f) <= KeyOf(q) <==> FamilyOf(q) == f { PrefixIsFamily(f, q); }
    forall r: Query ensures KeyOf(q) == KeyOf(r) <==> q == r { KeysAreUnique(q, r); }
  }

  lemma PermissionsUnchanged(d: Directory, w: Write, q: Query)
    requires w.id != 0 && TableOf(w) == PermissionTable && !Concerns(TableOf(w), w.id, q)
    ensures Ask(Apply(d, w), q) == Ask(d, q)
  {}

  lemma RolesUnchanged(d: Directory, w: Write, q: Query)
    requires w.id != 0 && TableOf(w) == RoleTable && !Concerns(TableOf(w), w.id, q)
    ensures Ask(Apply(d, w), q) == Ask(d, q)
  {}

  lemma ProfessionsUnchanged(d: Directory, w: Write, q: Query)
    requires w.id != 0 && TableOf(w) == ProfessionTable && !Concerns(TableOf(w), w.id, q)
    ensures Ask(Apply(d, w), q) == Ask(d, q)
  {}

  lemma ResourcesUnchanged(d: Directory, w: Write, q: Query)
    requires w.id != 0 && TableOf(w) == ResourceTable && !Concerns(TableOf(w), w.id, q)
    ensures Ask(Apply(d, w), q) == Ask(d, q)
  {}

  lemma CampsUnchanged(d: Directory, w: Write, q: Query)
    requires w.id != 0 && TableOf(w) == CampTable && !Concerns(TableOf(w), w.id, q)
    ensures Ask(Apply(d, w), q) == Ask(d, q)
  {}

  /** Whatever read a write can change, it invalidates. */
  lemma WritesCoverWhatTheyChange(d: Directory, w: Write, q: Query)
    requires w.id != 0
    ensures Ask(Apply(d, w), q) != Ask(d, q) ==> Invalidates(TableOf(w), w.id, KeyOf(q))
  {
    InvalidatesExactly(TableOf(w), w.id, q);
    if !Concerns(TableOf(w), w.id, q) {
      match TableOf(w) {
        case PermissionTable => PermissionsUnchanged(d, w, q);
        case RoleTable => RolesUnchanged(d, w, q);
        case ProfessionTable => ProfessionsUnchanged(d, w, q);
        case ResourceTable => ResourcesUnchanged(d, w, q);
        case CampTable => CampsUnchanged(d, w, q);
      }
    }
  }

  // ---------------------------------------------------------------------------------------------
  // The services over one cache, one call at a time
  // ---------------------------------------------------------------------------------------------

  /** Every entry is what the getter behind its key would return now. */
  ghost predicate Coherent(cache: map<string, Answer>, d: Directory) {
    forall key | key in cache :: exists q :: KeyOf(q) == key && Ask(d, q) == Some(cache[key])
  }

  function Without(cache: map<string, Answer>, t: Table, id: nat): map<string, Answer> {
    map key | key in cache && !Invalidates(t, id, key) :: cache[key]
  }

  /** The keys a prefix match may return. */
  function Matching(cache: map<string, Answer>, prefix: string): set<string> {
    set key | key in cache && prefix <= key
  }

  /** What SCAN promises: every key present from start to end is returned, in some page, at least once. */
  ghost predicate IsScan(pages: seq<set<string>>, matching: set<string>) {
    && |pages| >= 1
    && (forall i | 0 <= i < |pages| :: pages[i] <= matching)
    && (forall key | key in matching :: Returned(pages, key))
  }

  predicate Returned(pages: seq<set<string>>, key: string) {
    exists i | 0 <= i < |pages| :: key in pages[i]
  }

  function Erased(cache: map<string, Answer>, prefix: string): map<string, Answer> {
    cache - Matching(cache, prefix)
  }

  lemma PermissionKeys(id: nat)
    ensures NamedKeys(PermissionTable, id) == if id != 0 then {KeyOf(OnePermission(id))} else {}
  {}

  lemma RoleKeys(id: nat)
    ensures NamedKeys(RoleTable, id) == if id != 0 then {KeyOf(OneRole(id))} else {}
  {}

  lemma ProfessionKeys(id: nat)
    ensures NamedKeys(ProfessionTable, id) == {KeyOf(ProfessionResources)} + if id != 0 then {KeyOf(OneProfession(id))} else {}
  {}

  lemma ResourceKeys(id: nat)
    ensures NamedKeys(ResourceTable, id) == {KeyOf(ProfessionResources)} + if id != 0 then {KeyOf(OneResource(id))} else {}
  {}

  lemma CampKeys(id: nat)
    ensures NamedKeys(CampTable, id) == {KeyOf(CampCatalog)} + if id != 0 then {KeyOf(OneCamp(id))} else {}
  {}

  lemma OneFamilyErased(cache: map<string, Answer>, t: Table, id: nat)
    requires t != PermissionTable
    ensures Erased(cache - NamedKeys(t, id), Head(Families(t)[0])) == Without(cache, t, id)
  {
    var f := Families(t)[0];
    assert Families(t) == [f];
    forall key ensures Invalidates(t, id, key) <==> key in NamedKeys(t, id) || Head(f) <= key {}
  }

  lemma PermissionFamiliesErased(cache: map<string, Answer>, id: nat)
    ensures Erased(Erased(Erased(cache - NamedKeys(PermissionTable, id), Head(PERMISSIONS)), Head(ROLES)), Head(ROLE))
            == Without(cache, PermissionTable, id)
  {
    var t := PermissionTable;
    forall key
      ensures Invalidates(t, id, key) <==>
        key in NamedKeys(t, id) || Head(PERMISSIONS) <= key || Head(ROLES) <= key || Head(ROLE) <= key
    {
      assert PERMISSIONS in Families(t) && ROLES in Families(t) && ROLE in Families(t);
    }
  }

  class Services {
    var directory: Directory
    var cache: map<string, Answer>

    constructor (d: Directory)
      ensures directory == d && cache == map[]
    {
      directory, cache := d, map[];
    }

    /** `getOrSetCacheJson`: a hit is served as it is; a miss asks the database and fills; a 404 fills nothing. */
    method GetOrSet(q: Query) returns (answer: Option<Answer>)
      requires Coherent(cache, directory)
      modifies this`cache
      ensures answer == Ask(directory, q)
      ensures cache == if answer.Some? then old(cache)[KeyOf(q) := answer.value] else old(cache)
      ensures Coherent(cache, directory)
    {
      var key := KeyOf(q);
      if key in cache {
        CachedIsCurrent(cache, directory, q);
        assert cache == cache[key := cache[key]];
        return Some(cache[key]);
      }
      answer := Ask(directory, q);
      if answer.Some? {
        cache := cache[key := answer.value];
        assert KeyOf(q) == key && Ask(directory, q) == Some(cache[key]);
      }
    }

    method DeleteKeys(keys: set<string>)
      modifies this`cache
      ensures cache == old(cache) - keys
    {
      if keys == {} {
        assert cache == cache - keys;
        return;
      }
      cache := cache - keys;
    }

    /** The server's side of a scan: pages of matching keys, in no promised order. */
    method Scan(prefix: string) returns (pages: seq<set<string>>)
      ensures IsScan(pages, Matching(cache, prefix))
    {
      pages := [{}];
      var left := Matching(cache, prefix);
      while left != {}
        invariant left <= Matching(cache, prefix)
        invariant |pages| >= 1 && forall i | 0 <= i < |pages| :: pages[i] <= Matching(cache, prefix)
        invariant forall key | key in Matching(cache, prefix) :: key in left || Returned(pages, key)
        decreases left
      {
        var key := AnyOf(left);
        ghost var before := pages;
        pages := pages + [{key}];
        assert pages[|before|] == {key};
        forall k | Returned(before, k) ensures Returned(pages, k) {
          var i :| 0 <= i < |before| && k in before[i];
          assert k in pages[i];
        }
        left := left - {key};
      }
    }

    /** The do-while loop over the cursor. */
    method DeleteByPrefix(prefix: string)
      modifies this`cache
      ensures cache == Erased(old(cache), prefix)
    {
      var pages := Scan(prefix);
      var cursor := 0;
      ghost var gone: set<string> := {};
      assert cache == cache - gone;
      while true
        invariant 0 <= cursor < |pages|
        invariant cache == old(cache) - gone
        invariant gone <= Matching(old(cache), prefix)
        invariant forall i | 0 <= i < cursor :: pages[i] <= gone
        decreases |pages| - cursor
      {
        var keys := pages[cursor];
        if keys != {} {
          cache := cache - keys;
        }
        gone := gone + keys;
        cursor := cursor + 1;
        if cursor == |pages| {
          break;
        }
      }
      forall key | key in Matching(old(cache), prefix) ensures key in gone {
        assert Returned(pages, key);
      }
    }

    method InvalidatePermissionCache(id: nat)
      modifies this`cache
      ensures cache == Without(old(cache), PermissionTable, id)
    {
      PermissionKeys(id);
      DeleteKeys(if id != 0 then {KeyOf(OnePermission(id))} else {});
      DeleteByPrefix("permissions:list:");
      DeleteByPrefix("roles:list:");
      DeleteByPrefix("role:");
      PermissionFamiliesErased(old(cache), id);
    }

    method InvalidateRoleCache(id: nat)
      modifies this`cache
      ensures cache == Without(old(cache), RoleTable, id)
    {
      RoleKeys(id);
      DeleteKeys(if id != 0 then {KeyOf(OneRole(id))} else {});
      DeleteByPrefix("roles:list:");
      OneFamilyErased(old(cache), RoleTable, id);
    }

    method InvalidateProfessionCache(id: nat)
      modifies this`cache
      ensures cache == Without(old(cache), ProfessionTable, id)
    {
      ProfessionKeys(id);
      DeleteKeys({KeyOf(ProfessionResources)} + (if id != 0 then {KeyOf(OneProfession(id))} else {}));
      DeleteByPrefix("professions:list:");
      OneFamilyErased(old(cache), ProfessionTable, id);
    }

    method InvalidateResourceCache(id: nat)
      modifies this`cache
      ensures cache == Without(old(cache), ResourceTable, id)
    {
      ResourceKeys(id);
      DeleteKeys({KeyOf(ProfessionResources)} + (if id != 0 then {KeyOf(OneResource(id))} else {}));
      DeleteByPrefix("resource_types:list:");
      OneFamilyErased(old(cache), ResourceTable, id);
    }

    method InvalidateCampCache(id: nat)
      modifies this`cache
      ensures cache == Without(old(cache), CampTable, id)
    {
      CampKeys(id);
      DeleteKeys({KeyOf(CampCatalog)} + (if id != 0 then {KeyOf(OneCamp(id))} else {}));
      DeleteByPrefix("camps:list:");
      OneFamilyErased(old(cache), CampTable, id);
    }

    /** A create, update or delete that the database accepted: commit, then invalidate. Ids start at 1. */
    method Commit(w: Write)
      requires Coherent(cache, directory) && w.id != 0
      modifies this
      ensures directory == Apply(old(directory), w)
      ensures cache == Without(old(cache), TableOf(w), w.id)
      ensures Coherent(cache, directory)
    {
      directory := Apply(directory, w);
      match TableOf(w) {
        case PermissionTable => InvalidatePermissionCache(w.id);
        case RoleTable => InvalidateRoleCache(w.id);
        case ProfessionTable => InvalidateProfessionCache(w.id);
        case ResourceTable => InvalidateResourceCache(w.id);
        case CampTable => InvalidateCampCache(w.id);
      }
      WritesKeepCoherence(old(cache), old(directory), w);
    }
  }

  lemma CachedIsCurrent(cache: map<string, Answer>, d: Directory, q: Query)
    requires Coherent(cache, d) && KeyOf(q) in cache
    ensures Ask(d, q) == Some(cache[KeyOf(q)])
  {
    var r :| KeyOf(r) == KeyOf(q) && Ask(d, r) == Some(cache[KeyOf(q)]);
    KeysAreUnique(q, r);
  }

  /** A write and its invalidation leave only entries that still tell the truth. */
  lemma WritesKeepCoherence(cache: map<string, Answer>, d: Directory, w: Write)
    requires Coherent(cache, d) && w.id != 0
    ensures Coherent(Without(cache, TableOf(w), w.id), Apply(d, w))
  {
    var left := Without(cache, TableOf(w), w.id);
    forall key | key in left ensures exists q :: KeyOf(q) == key && Ask(Apply(d, w), q) == Some(left[key]) {
      var q :| KeyOf(q) == key && Ask(d, q) == Some(cache[key]);
      WritesCoverWhatTheyChange(d, w, q);
    }
  }
}
