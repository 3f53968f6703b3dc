/** Cache keys as strings: every key names one query, and each invalidation prefix names one family. */
module CacheKeys {
  import opened Core
  import opened Text

  /** The cached reads; page sizes are the effective ones, at most 100. */
  datatype Query =
    | OnePermission(id: nat) | PermissionList(page: nat, limit: nat)
    | OneRole(id: nat) | RoleList(page: nat, limit: nat)
    | OneProfession(id: nat) | ProfessionList(page: nat, limit: nat) | ProfessionResources
    | OneResource(id: nat) | ResourceList(page: nat, limit: nat)
    | OneCamp(id: nat) | CampList(page: nat, limit: nat, only: Option<nat>) | CampCatalog

  datatype Family =
    | PERMISSION | PERMISSIONS | ROLE | ROLES | PROFESSION | PROFESSIONS | PROFESSION_RESOURCES
    | RESOURCE | RESOURCES | CAMP | CAMPS | CAMP_CATALOG

  function FamilyOf(q: Query): Family {
    match q
    case OnePermission(_) => PERMISSION
    case PermissionList(_, _) => PERMISSIONS
    case OneRole(_) => ROLE
    case RoleList(_, _) => ROLES
    case OneProfession(_) => PROFESSION
    case ProfessionList(_, _) => PROFESSIONS
    case ProfessionResources => PROFESSION_RESOURCES
    case OneResource(_) => RESOURCE
    case ResourceList(_, _) => RESOURCES
    case OneCamp(_) => CAMP
    case CampList(_, _, _) => CAMPS
    case CampCatalog => CAMP_CATALOG
  }

  /** The fixed head of a family's keys. */
  function Head(f: Family): string {
    match f
    case PERMISSION => "permission:"
    case PERMISSIONS => "permissions:list:"
    case ROLE => "role:"
    case ROLES => "roles:list:"
    case PROFESSION => "profession:"
    case PROFESSIONS => "professions:list:"
    case PROFESSION_RESOURCES => "catalog:profession:resources"
    case RESOURCE => "resource_type:"
    case RESOURCES => "resource_types:list:"
    case CAMP => "camp:"
    case CAMPS => "camps:list:"
    case CAMP_CATALOG => "catalog:camps"
  }

  function CampSuffix(only: Option<nat>): string {
    if only.Some? then ":camp:" + Decimal(only.value) else ""
  }

  function Tail(q: Query): string {
    match q
    case OnePermission(id) => Decimal(id) + ":data"
    case OneRole(id) => Decimal(id) + ":data"
    case OneProfession(id) => Decimal(id) + ":data"
    case OneResource(id) => Decimal(id) + ":data"
    case OneCamp(id) => Decimal(id) + ":data"
    case PermissionList(page, limit) => Decimal(page) + ":" + Decimal(limit)
    case RoleList(page, limit) => Decimal(page) + ":" + Decimal(limit)
    case ProfessionList(page, limit) => Decimal(page) + ":" + Decimal(limit)
    case ResourceList(page, limit) => Decimal(page) + ":" + Decimal(limit)
    case CampList(page, limit, only) =>
      Decimal(page) + ":" + Decimal(limit) + CampSuffix(only)
    case ProfessionResources => ""
    case CampCatalog => ""
  }

  function KeyOf(q: Query): string {
    Head(FamilyOf(q)) + Tail(q)
  }

  /** Reads the family off a key, looking only where the heads differ. */
  function Classify(key: string): Option<Family> {
    if |key| < 5 then None
    else if key[0] == 'p' then
      if |key| < 11 then None
      else if key[1] == 'e' then Some(if key[10] == ':' then PERMISSION else PERMISSIONS)
      else Some(if key[10] == ':' then PROFESSION else PROFESSIONS)
    else if key[0] == 'r' then
      if key[1] == 'o' then Some(if key[4] == ':' then ROLE else ROLES)
      else if |key| < 14 then None
      else Some(if key[13] == ':' then RESOURCE else RESOURCES)
    else if key[2] == 'm' then Some(if key[4] == ':' then CAMP else CAMPS)
    else if |key| < 9 then None
    else Some(if key[8] == 'p' then PROFESSION_RESOURCES else CAMP_CATALOG)
  }

  lemma HeadsAreTold(f: Family)
    ensures Classify(Head(f)) == Some(f)
  {}

  lemma HeadDecides(f: Family, rest: string)
    ensures Classify(Head(f) + rest) == Some(f)
  {
    var head, key := Head(f), Head(f) + rest;
    HeadsAreTold(f);
    assert forall i | 0 <= i < |head| :: key[i] == head[i];
    match f
    case PERMISSION => case PERMISSIONS => case ROLE => case ROLES => case PROFESSION => case PROFESSIONS =>
    case PROFESSION_RESOURCES => case RESOURCE => case RESOURCES => case CAMP => case CAMPS => case CAMP_CATALOG =>
  }

  /**
    A prefix deletion hits exactly its own family: "role:" takes every single role and no role list, a
    list prefix takes every page of its own list, with or without a camp suffix, and nothing else.
  */
  lemma PrefixIsFamily(f: Family, q: Query)
    ensures Head(f) <= KeyOf(q) <==> FamilyOf(q) == f
  {
    if Head(f) <= KeyOf(q) {
      HeadDecides(f, KeyOf(q)[|Head(f)|..]);
      assert KeyOf(q) == Head(f) + KeyOf(q)[|Head(f)|..];
      HeadDecides(FamilyOf(q), Tail(q));
    }
  }

  // ---------------------------------------------------------------------------------------------
  // Keys name their queries
  // ---------------------------------------------------------------------------------------------

  lemma EarlierColon(a: string, x: string, b: string, y: string)
    requires AllDigits(b) && |a| < |b|
    ensures a + ":" + x != b + ":" + y
  {
    assert (a + ":" + x)[|a|] == ':' && (b + ":" + y)[|a|] == b[|a|];
  }

  /** Digits followed by a colon can be read off in only one way. */
  lemma DigitsEnd(m: nat, x: string, n: nat, y: string)
    requires Decimal(m) + ":" + x == Decimal(n) + ":" + y
    ensures m == n && x == y
  {
    var a, b := Decimal(m), Decimal(n);
    DecimalReadsBack(m);
    DecimalReadsBack(n);
    if |a| < |b| { EarlierColon(a, x, b, y); }
    if |b| < |a| { EarlierColon(b, y, a, x); }
    assert a == (a + ":" + x)[..|a|] == (b + ":" + y)[..|a|] == b;
    assert x == (a + ":" + x)[|a| + 1..] == (b + ":" + y)[|a| + 1..] == y;
    DecimalInjective(m, n);
  }

  lemma DigitsHaveNoColon(m: nat, n: nat, y: string)
    ensures Decimal(m) != Decimal(n) + ":" + y
  {
    DecimalReadsBack(m);
    assert (Decimal(n) + ":" + y)[|Decimal(n)|] == ':';
  }

  lemma ColonFirst(n: nat, c: nat)
    ensures Decimal(n) + CampSuffix(Some(c)) == Decimal(n) + ":" + ("camp:" + Decimal(c))
    ensures ("camp:" + Decimal(c))[5..] == Decimal(c)
  {
    assert ":camp:" + Decimal(c) == ":" + ("camp:" + Decimal(c));
  }

  lemma SameCamp(m: nat, a: nat, n: nat, b: nat)
    requires Decimal(m) + CampSuffix(Some(a)) == Decimal(n) + CampSuffix(Some(b))
    ensures m == n && a == b
  {
    ColonFirst(m, a);
    ColonFirst(n, b);
    DigitsEnd(m, "camp:" + Decimal(a), n, "camp:" + Decimal(b));
    DecimalInjective(a, b);
  }

  lemma CampPagesDiffer(m: nat, a: Option<nat>, n: nat, b: Option<nat>)
    requires Decimal(m) + CampSuffix(a) == Decimal(n) + CampSuffix(b)
    ensures m == n && a == b
  {
    assert Decimal(m) + "" == Decimal(m) && Decimal(n) + "" == Decimal(n);
    match (a, b) {
      case (Some(c), Some(d)) => SameCamp(m, c, n, d);
      case (Some(c), None) =>
        ColonFirst(m, c);
        DigitsHaveNoColon(n, m, "camp:" + Decimal(c));
      case (None, Some(d)) =>
        ColonFirst(n, d);
        DigitsHaveNoColon(m, n, "camp:" + Decimal(d));
      case (None, None) => DecimalInjective(m, n);
    }
  }

  lemma SameData(m: nat, n: nat)
    requires Decimal(m) + ":data" == Decimal(n) + ":data"
    ensures m == n
  {
    assert Decimal(m) + ":data" == Decimal(m) + ":" + "data" && Decimal(n) + ":data" == Decimal(n) + ":" + "data";
    DigitsEnd(m, "data", n, "data");
  }

  lemma SamePage(p: nat, l: nat, q: nat, m: nat)
    requires Decimal(p) + ":" + Decimal(l) == Decimal(q) + ":" + Decimal(m)
    ensures p == q && l == m
  {
    DigitsEnd(p, Decimal(l), q, Decimal(m));
    DecimalInjective(l, m);
  }

  lemma Regroup(a: string, b: string, c: string, d: string)
    ensures a + b + c + d == a + b + (c + d)
  {}

  lemma SameCampPage(q: Query, r: Query)
    requires q.CampList? && r.CampList? && Tail(q) == Tail(r)
    ensures q == r
  {
    Regroup(Decimal(q.page), ":", Decimal(q.limit), CampSuffix(q.only));
    Regroup(Decimal(r.page), ":", Decimal(r.limit), CampSuffix(r.only));
    DigitsEnd(q.page, Decimal(q.limit) + CampSuffix(q.only), r.page, Decimal(r.limit) + CampSuffix(r.only));
    CampPagesDiffer(q.limit, q.only, r.limit, r.only);
  }

  lemma SameTail(q: Query, r: Query)
    requires FamilyOf(q) == FamilyOf(r) && Tail(q) == Tail(r)
    ensures q == r
  {
    match q {
      case OnePermission(id) => SameData(id, r.id);
      case OneRole(id) => SameData(id, r.id);
      case OneProfession(id) => SameData(id, r.id);
      case OneResource(id) => SameData(id, r.id);
      case OneCamp(id) => SameData(id, r.id);
      case PermissionList(page, limit) => SamePage(page, limit, r.page, r.limit);
      case RoleList(page, limit) => SamePage(page, limit, r.page, r.limit);
      case ProfessionList(page, limit) => SamePage(page, limit, r.page, r.limit);
      case ResourceList(page, limit) => SamePage(page, limit, r.page, r.limit);
      case CampList(page, limit, only) =>
        SameCampPage(q, r);
      case _ =>
    }
  }

  /** No two reads share a key. */
  lemma KeysAreUnique(q: Query, r: Query)
    ensures KeyOf(q) == KeyOf(r) <==> q == r
  {
    if KeyOf(q) == KeyOf(r) {
      HeadDecides(FamilyOf(q), Tail(q));
      HeadDecides(FamilyOf(r), Tail(r));
      assert Tail(q) == KeyOf(q)[|Head(FamilyOf(q))|..] && Tail(r) == KeyOf(r)[|Head(FamilyOf(r))|..];
      SameTail(q, r);
    }
  }
}
