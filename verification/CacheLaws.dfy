/** What the cached reads answer, and that an invalidation drops no more than a write of its table could change. */
module CacheLaws {
  import opened Core
  import opened CacheKeys
  import opened Cache
  import CacheRaces

  // ---------------------------------------------------------------------------------------------
  // Answers
  // ---------------------------------------------------------------------------------------------

  /** A single row is answered if it exists; a role with exactly its granted permissions that exist. */
  lemma SinglesAnswer(d: Directory, id: nat)
    ensures Ask(d, OnePermission(id)) == if id in d.permissions then Some(Single(d.permissions[id])) else None
    ensures Ask(d, OneProfession(id)) == if id in d.professions then Some(Single(d.professions[id])) else None
    ensures Ask(d, OneResource(id)) == if id in d.resources then Some(Single(d.resources[id])) else None
    ensures Ask(d, OneCamp(id)) == if id in d.camps then Some(SingleCamp(d.camps[id])) else None
    ensures Ask(d, OneRole(id)).Some? <==> id in d.roles
    ensures id in d.roles ==>
              && var role := Ask(d, OneRole(id)).value;
              && role.SingleRole? && role.role.row == d.roles[id].row
              && (forall p :: p in role.role.permissions <==> p in d.roles[id].grants && p in d.permissions)
              && (forall p | p in role.role.permissions :: role.role.permissions[p] == d.permissions[p])
  {}

  /** Lists carry their page and page size; the camp list is narrowed by its filter, the camp catalogue to active camps. */
  lemma ListsAnswer(d: Directory, page: nat, limit: nat, only: Option<nat>, k: (int, int))
    ensures Ask(d, PermissionList(page, limit)) == Some(Page(page, limit, d.permissions))
    ensures Ask(d, ProfessionList(page, limit)) == Some(Page(page, limit, d.professions))
    ensures Ask(d, ResourceList(page, limit)) == Some(Page(page, limit, d.resources))
    ensures var r := Ask(d, RoleList(page, limit));
            && r.Some? && r.value.RolePage? && r.value.page == page && r.value.limit == limit && r.value.roles.Keys == d.roles.Keys
            && forall x: nat | x in d.roles :: Ask(d, OneRole(x)) == Some(SingleRole(r.value.roles[x]))
    ensures var r := Ask(d, CampList(page, limit, only));
            && r.Some? && r.value.CampPage? && r.value.page == page && r.value.limit == limit
            && (forall c :: c in r.value.camps <==> c in d.camps && (only.Some? ==> c == only.value))
            && (forall c | c in r.value.camps :: r.value.camps[c] == d.camps[c])
    ensures var r := Ask(d, CampCatalog);
            && r.Some? && r.value.CampPage? && (forall c :: c in r.value.camps <==> c in d.camps && d.camps[c].active)
            && (forall c | c in r.value.camps :: r.value.camps[c] == d.camps[c])
    ensures var r := Ask(d, ProfessionResources);
            && r.Some? && r.value.Amounts?
            && (k in r.value.amounts <==> k in d.amounts && k.0 in d.professions && k.1 in d.resources)
            && (k in r.value.amounts ==> r.value.amounts[k] == (d.amounts[k], d.professions[k.0], d.resources[k.1]))
  {}

  /** Writes save their row and nothing else; a deleted permission leaves every role, a deleted profession its amounts. */
  lemma WritesEffect(d: Directory, w: Write)
    ensures var v := Apply(d, w);
            && (w.SavePermission? ==> v == d.(permissions := d.permissions[w.id := w.row]))
            && (w.SaveRole? ==>
                  && v == d.(roles := v.roles) && v.roles.Keys == d.roles.Keys + {w.id} && v.roles[w.id].row == w.row
                  && (w.grants.Some? ==> v.roles[w.id].grants == w.grants.value)
                  && (w.grants.None? && w.id in d.roles ==> v.roles[w.id].grants == d.roles[w.id].grants)
                  && (forall r | r in d.roles && r != w.id :: v.roles[r] == d.roles[r]))
            && (w == Delete(PermissionTable, w.id) ==>
                  && v.permissions.Keys == d.permissions.Keys - {w.id} && v.roles.Keys == d.roles.Keys
                  && (forall r | r in d.roles :: v.roles[r].grants == d.roles[r].grants - {w.id} && v.roles[r].row == d.roles[r].row))
            && (w == Delete(ProfessionTable, w.id) ==>
                  && v.professions.Keys == d.professions.Keys - {w.id}
                  && (forall k :: k in v.amounts <==> k in d.amounts && k.0 != w.id))
  {}

  // ---------------------------------------------------------------------------------------------
  // No more than needed
  // ---------------------------------------------------------------------------------------------

  const PLAIN := Row("plain", "")

  /** A camp list narrowed to another camp is dropped though no write of this camp changes it. */
  predicate Spared(t: Table, id: nat, q: Query) {
    t == CampTable && q.CampList? && q.only.Some? && q.only.value != id
  }

  /** Some write of this row of this table changes the answer of the read in some directory. */
  ghost predicate CanChange(t: Table, id: nat, q: Query) {
    exists d: Directory, w: Write :: TableOf(w) == t && w.id == id && Ask(Apply(d, w), q) != Ask(d, q)
  }

  lemma Changes(t: Table, id: nat, q: Query, d: Directory, w: Write)
    requires TableOf(w) == t && w.id == id && Ask(Apply(d, w), q) != Ask(d, q)
    ensures CanChange(t, id, q)
  {}

  const BARE := Directory(map[], map[], map[], map[], map[], map[])

  lemma PermissionWritesMatter(id: nat, q: Query)
    requires id != 0 && Concerns(PermissionTable, id, q)
    ensures CanChange(PermissionTable, id, q)
  {
    var w := SavePermission(id, PLAIN);
    match q {
      case OneRole(r) =>
        var d := BARE.(roles := map[r := Role(PLAIN, {id})]);
        assert id in Ask(Apply(d, w), q).value.role.permissions && id !in Ask(d, q).value.role.permissions;
        Changes(PermissionTable, id, q, d, w);
      case RoleList(page, limit) =>
        var d := BARE.(roles := map[1 := Role(PLAIN, {id})]);
        assert id in Ask(Apply(d, w), q).value.roles[1].permissions && id !in Ask(d, q).value.roles[1].permissions;
        Changes(PermissionTable, id, q, d, w);
      case _ => Saved(PermissionTable, id, q, w);
    }
  }

  lemma Saved(t: Table, id: nat, q: Query, w: Write)
    requires TableOf(w) == t && w.id == id
    requires
      || (w == SavePermission(id, PLAIN) && (q == OnePermission(id) || q.PermissionList?))
      || (w == SaveRole(id, PLAIN, None) && (q == OneRole(id) || q.RoleList?))
      || (w == SaveProfession(id, PLAIN) && (q == OneProfession(id) || q.ProfessionList?))
      || (w == SaveResource(id, PLAIN) && (q == OneResource(id) || q.ResourceList?))
      || (w == SaveCamp(id, Camp(PLAIN, true))
          && (q == OneCamp(id) || q.CampCatalog? || (q.CampList? && (q.only.Some? ==> q.only.value == id))))
    ensures CanChange(t, id, q)
  {
    var d := BARE;
    var v := Apply(d, w);
    if q.PermissionList? { assert id in v.permissions && id !in d.permissions; }
    if q.RoleList? { assert id in Ask(v, q).value.roles && id !in Ask(d, q).value.roles; }
    if q.ProfessionList? { assert id in v.professions && id !in d.professions; }
    if q.ResourceList? { assert id in v.resources && id !in d.resources; }
    if q.CampList? || q.CampCatalog? { assert id in Ask(v, q).value.camps && id !in Ask(d, q).value.camps; }
    Changes(t, id, q, d, w);
  }

  lemma CatalogueWritesMatter(t: Table, id: nat)
    requires t in {ProfessionTable, ResourceTable}
    ensures CanChange(t, id, ProfessionResources)
  {
    var k := (id, id);
    if t == ProfessionTable {
      var d := BARE.(resources := map[id := PLAIN], amounts := map[k := 1]);
      var w := SaveProfession(id, PLAIN);
      assert k in Ask(Apply(d, w), ProfessionResources).value.amounts && k !in Ask(d, ProfessionResources).value.amounts;
      Changes(t, id, ProfessionResources, d, w);
    } else {
      var d := BARE.(professions := map[id := PLAIN], amounts := map[k := 1]);
      var w := SaveResource(id, PLAIN);
      assert k in Ask(Apply(d, w), ProfessionResources).value.amounts && k !in Ask(d, ProfessionResources).value.amounts;
      Changes(t, id, ProfessionResources, d, w);
    }
  }

  /**
    A write invalidates exactly the reads that some write of its row could change, and besides only the camp
    lists narrowed to other camps.
  */
  lemma InvalidatesWhatCanChange(t: Table, id: nat, q: Query)
    requires id != 0
    ensures Concerns(t, id, q) <==> CanChange(t, id, q) || Spared(t, id, q)
    ensures Spared(t, id, q) ==> !CanChange(t, id, q)
  {
    if CanChange(t, id, q) {
      var d: Directory, w: Write :| TableOf(w) == t && w.id == id && Ask(Apply(d, w), q) != Ask(d, q);
      WritesCoverWhatTheyChange(d, w, q);
      InvalidatesExactly(t, id, q);
    }
    if Spared(t, id, q) {
      forall d: Directory, w: Write | TableOf(w) == t && w.id == id ensures Ask(Apply(d, w), q) == Ask(d, q) {
        OtherCampsSeeNothing(d, w, q);
      }
    }
    if Concerns(t, id, q) && !Spared(t, id, q) {
      match t {
        case PermissionTable => PermissionWritesMatter(id, q);
        case RoleTable => Saved(t, id, q, SaveRole(id, PLAIN, None));
        case ProfessionTable =>
          if q.ProfessionResources? { CatalogueWritesMatter(t, id); } else { Saved(t, id, q, SaveProfession(id, PLAIN)); }
        case ResourceTable =>
          if q.ProfessionResources? { CatalogueWritesMatter(t, id); } else { Saved(t, id, q, SaveResource(id, PLAIN)); }
        case CampTable => Saved(t, id, q, SaveCamp(id, Camp(PLAIN, true)));
      }
    }
  }

  lemma OtherCampsSeeNothing(d: Directory, w: Write, q: Query)
    requires TableOf(w) == CampTable && Spared(CampTable, w.id, q)
    ensures Ask(Apply(d, w), q) == Ask(d, q)
  {
    assert Visible(Apply(d, w).camps, q.only) == Visible(d.camps, q.only);
  }

  /** Permissions, roles and camps live an hour, professions six, resources a day; a hit is served strictly before that. */
  lemma Lifetimes(s: CacheRaces.State, q: Query)
    ensures q.OnePermission? || q.PermissionList? || q.OneRole? || q.RoleList? || q.OneCamp? || q.CampList? || q.CampCatalog? ==>
              CacheRaces.Ttl(q) == 60 * 60 * 1000
    ensures q.OneProfession? || q.ProfessionList? || q.ProfessionResources? ==> CacheRaces.Ttl(q) == 6 * 60 * 60 * 1000
    ensures q.OneResource? || q.ResourceList? ==> CacheRaces.Ttl(q) == 24 * 60 * 60 * 1000
    ensures CacheRaces.Enabled(s, CacheRaces.Hit(q)) ==> KeyOf(q) in s.entries && s.clock < s.entries[KeyOf(q)].expires
  {}
}
