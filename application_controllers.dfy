/**
 * The rental-application handlers of server/src/controllers/application-controllers.ts,
 * run against an in-memory store that stands in for the database: applying for a
 * property (a lease and an application created together), changing an application's
 * status (approval creates a lease and makes the applicant an occupant), and listing
 * applications for a manager or a tenant with the latest lease of each.
 */
module ApplicationControllers {
  import opened Options
  import opened Text
  import opened Calendar
  import opened Entities

  // ---------------------------------------------------------------------------
  // Lookups on the tables
  // ---------------------------------------------------------------------------

  /** Row `id` exists among the leases. */
  predicate HasLease(leases: seq<Lease>, id: int)
  {
    exists i :: 0 <= i < |leases| && leases[i].id == id
  }

  /** Appending a lease keeps every existing lease findable. */
  lemma HasLeaseAppend(leases: seq<Lease>, l: Lease)
    ensures forall id :: HasLease(leases, id) ==> HasLease(leases + [l], id)
    ensures HasLease(leases + [l], l.id)
  {
    forall id | HasLease(leases, id) ensures HasLease(leases + [l], id) {
      var i :| 0 <= i < |leases| && leases[i].id == id;
      assert (leases + [l])[i] == leases[i];
    }
    assert (leases + [l])[|leases|] == l;
  }

  /** Identifiers strictly increase along the table, so none repeats. */
  predicate LeaseIdsIncreasing(leases: seq<Lease>)
  {
    forall i, j :: 0 <= i < j < |leases| ==> leases[i].id < leases[j].id
  }

  predicate ApplicationIdsIncreasing(apps: seq<Application>)
  {
    forall i, j :: 0 <= i < j < |apps| ==> apps[i].id < apps[j].id
  }

  /** `findUnique` on the application table: the position of row `id`, if there is one. */
  function IndexOf(apps: seq<Application>, id: int): (r: Option<nat>)
    ensures r.Some? ==> r.value < |apps| && apps[r.value].id == id
    ensures r.None? <==> forall i :: 0 <= i < |apps| ==> apps[i].id != id
  {
    if apps == [] then None
    else if apps[|apps| - 1].id == id then Some(|apps| - 1)
    else IndexOf(apps[..|apps| - 1], id)
  }

  // ---------------------------------------------------------------------------
  // The latest lease of a tenant at a property
  // ---------------------------------------------------------------------------

  /** A lease of `tenant` at property `propertyId`. */
  predicate LeaseOf(l: Lease, tenant: string, propertyId: int)
  {
    l.tenantCognitoId == tenant && l.propertyId == propertyId
  }

  /** `l` is a lease of the pair that starts no earlier than any other lease of the pair. */
  predicate IsLatestLease(leases: seq<Lease>, tenant: string, propertyId: int, l: Lease)
  {
    && l in leases
    && LeaseOf(l, tenant, propertyId)
    && forall i :: 0 <= i < |leases| && LeaseOf(leases[i], tenant, propertyId) ==>
         AtOrAfter(l.startDate, leases[i].startDate)
  }

  /**
   * `lease.findFirst` with the tenant and property as filter, ordered by start date
   * descending: the latest lease of the pair, or nothing when the pair has no lease.
   */
  method FindLatestLease(leases: seq<Lease>, tenant: string, propertyId: int) returns (found: Option<Lease>)
    ensures found.None? <==> forall i :: 0 <= i < |leases| ==> !LeaseOf(leases[i], tenant, propertyId)
    ensures found.Some? ==> IsLatestLease(leases, tenant, propertyId, found.value)
  {
    found := None;
    var k := 0;
    while k < |leases|
      invariant 0 <= k <= |leases|
      invariant found.None? <==> forall i :: 0 <= i < k ==> !LeaseOf(leases[i], tenant, propertyId)
      invariant found.Some? ==> IsLatestLease(leases[..k], tenant, propertyId, found.value)
    {
      var l := leases[k];
      if LeaseOf(l, tenant, propertyId) && (found.None? || !AtOrAfter(found.value.startDate, l.startDate)) {
        if found.Some? {
          AtOrAfterTotal(found.value.startDate, l.startDate);
          forall i | 0 <= i < k && LeaseOf(leases[i], tenant, propertyId)
            ensures AtOrAfter(l.startDate, leases[i].startDate)
          {
            assert leases[..k][i] == leases[i];
            AtOrAfterTransitive(l.startDate, found.value.startDate, leases[i].startDate);
          }
        }
        found := Some(l);
      }
      assert leases[..k + 1] == leases[..k] + [l];
      k := k + 1;
    }
    assert leases[..k] == leases;
  }

  // ---------------------------------------------------------------------------
  // Which applications a listing shows
  // ---------------------------------------------------------------------------

  /** The WHERE clause `listApplications` builds from `userId` and `userType`. */
  datatype Scope = ManagedBy(managerId: string) | AppliedBy(tenantId: string) | Everyone

  /**
   * `userType` `'manager'` filters on the property's manager, `'tenant'` on the applicant;
   * any other `userType` adds no filter. An absent `userId` is an `undefined` filter
   * value, which the ORM ignores, so it filters nothing either.
   */
  function ScopeOf(userId: Option<string>, userType: Option<string>): (s: Scope)
    ensures s.ManagedBy? <==> userType == Some("manager") && userId.Some?
    ensures s.AppliedBy? <==> userType == Some("tenant") && userId.Some?
    ensures !s.Everyone? ==> userId.Some? && (s.ManagedBy? ==> s.managerId == userId.value)
                               && (s.AppliedBy? ==> s.tenantId == userId.value)
  {
    if userType == Some("manager") && userId.Some? then ManagedBy(userId.value)
    else if userType == Some("tenant") && userId.Some? then AppliedBy(userId.value)
    else Everyone
  }

  /** Application `a` is one the scope selects. */
  predicate InScope(a: Application, properties: map<int, Property>, s: Scope)
  {
    match s
    case ManagedBy(m) => a.propertyId in properties && properties[a.propertyId].managerCognitoId == m
    case AppliedBy(t) => a.tenantCognitoId == t
    case Everyone => true
  }

  /** `application.findMany` with the scope as WHERE clause, in table order. */
  function Listed(apps: seq<Application>, properties: map<int, Property>, s: Scope): (r: seq<Application>)
    ensures |r| <= |apps|
    ensures forall a :: a in r <==> a in apps && InScope(a, properties, s)
  {
    if apps == [] then []
    else
      var rest := Listed(apps[1..], properties, s);
      assert forall a :: a in apps <==> a == apps[0] || a in apps[1..];
      if InScope(apps[0], properties, s) then [apps[0]] + rest else rest
  }

  /** Without a filter every application is listed, in table order. */
  lemma {:induction false} ListedEveryone(apps: seq<Application>, properties: map<int, Property>)
    ensures Listed(apps, properties, Everyone) == apps
  {
    if apps != [] {
      ListedEveryone(apps[1..], properties);
      assert [apps[0]] + apps[1..] == apps;
    }
  }

  /**
   * The listing for `(userId, userType)`: a manager sees the applications to the
   * properties they manage, a tenant sees their own, and any other caller sees all.
   */
  lemma ListingScope(apps: seq<Application>, properties: map<int, Property>,
                     userId: Option<string>, userType: Option<string>, a: Application)
    ensures a in Listed(apps, properties, ScopeOf(userId, userType)) <==>
      && a in apps
      && (userType == Some("manager") && userId.Some? ==>
            a.propertyId in properties && properties[a.propertyId].managerCognitoId == userId.value)
      && (userType == Some("tenant") && userId.Some? ==> a.tenantCognitoId == userId.value)
  {
  }

  /** A listed lease, with the date its next rent is due. */
  datatype LeaseView = LeaseView(lease: Lease, nextPaymentDate: Date)

  /** One entry of the listing: the application and its latest lease, if any. */
  datatype ApplicationView = ApplicationView(application: Application, lease: Option<LeaseView>)

  /** The lease approval writes: one year from `now`, at the property's rent and deposit. */
  function ApprovalLease(a: Application, p: Property, id: int, now: Date): (l: Lease)
    ensures l.tenantCognitoId == a.tenantCognitoId && l.propertyId == a.propertyId
    ensures l.rent == p.pricePerMonth && l.deposit == p.securityDeposit
    ensures l.startDate == now && l.endDate == OneYearLater(now) && After(l.endDate, now)
  {
    OneYearLaterShape(now);
    Lease(id, a.tenantCognitoId, a.propertyId, now, OneYearLater(now), p.pricePerMonth, p.securityDeposit)
  }

  /**
   * The application after `update({data: {status}})` with a status other than
   * `"Approved"`: an absent status is left out of the update, a status the column
   * accepts replaces the old one, and any other text makes the update fail.
   */
  function Restatus(a: Application, status: Option<string>): (r: Option<Application>)
    ensures status.None? ==> r == Some(a)
    ensures status.Some? ==> (r.None? <==> ParseStatus(status.value).None?)
    ensures r.Some? ==> r.value == a.(status := r.value.status)
    ensures r.Some? && status.Some? ==> Some(r.value.status) == ParseStatus(status.value)
  {
    if status.None? then Some(a)
    else match ParseStatus(status.value)
      case None => None
      case Some(v) => Some(a.(status := v))
  }

  /** The store's tables agree: keys match rows, references resolve, new identifiers are fresh. */
  ghost predicate Consistent(properties: map<int, Property>, tenants: set<string>, occupants: map<int, set<string>>,
                             leases: seq<Lease>, applications: seq<Application>, nextLeaseId: int, nextApplicationId: int)
  {
    && (forall id :: id in properties ==> properties[id].id == id)
    && occupants.Keys == properties.Keys
    && (forall id :: id in occupants ==> occupants[id] <= tenants)
    && LeaseIdsIncreasing(leases)
    && (forall i :: 0 <= i < |leases| ==> leases[i].id < nextLeaseId)
    && (forall i :: 0 <= i < |leases| ==>
          leases[i].propertyId in properties && leases[i].tenantCognitoId in tenants)
    && ApplicationIdsIncreasing(applications)
    && (forall i :: 0 <= i < |applications| ==> applications[i].id < nextApplicationId)
    && (forall i :: 0 <= i < |applications| ==>
          && applications[i].propertyId in properties
          && applications[i].tenantCognitoId in tenants
          && (applications[i].leaseId.Some? ==> HasLease(leases, applications[i].leaseId.value)))
  }

  /** Approval's three writes keep the tables consistent. */
  lemma ApprovalKeepsConsistent(properties: map<int, Property>, tenants: set<string>, occupants: map<int, set<string>>,
                                leases: seq<Lease>, applications: seq<Application>, nextLeaseId: int,
                                nextApplicationId: int, k: nat, now: Date)
    requires Consistent(properties, tenants, occupants, leases, applications, nextLeaseId, nextApplicationId)
    requires k < |applications|
    ensures var a := applications[k];
            var lease := ApprovalLease(a, properties[a.propertyId], nextLeaseId, now);
            Consistent(properties, tenants,
                       occupants[a.propertyId := occupants[a.propertyId] + {a.tenantCognitoId}],
                       leases + [lease],
                       applications[k := a.(status := Approved, leaseId := Some(nextLeaseId))],
                       nextLeaseId + 1, nextApplicationId)
  {
    var a := applications[k];
    var lease := ApprovalLease(a, properties[a.propertyId], nextLeaseId, now);
    HasLeaseAppend(leases, lease);
    var apps' := applications[k := a.(status := Approved, leaseId := Some(nextLeaseId))];
    assert forall i :: 0 <= i < |apps'| ==> apps'[i].id == applications[i].id;
  }

  // ---------------------------------------------------------------------------
  // The store and its handlers
  // ---------------------------------------------------------------------------

  /** What a handler answers: 201 with the new row, 200, 404 or 500, with the message. */
  datatype Response =
    | Created(application: Application)
    | Ok(application: Application)
    | NotFound(message: string)
    | ServerError(message: string)

  /** The tables the handlers use, with the tenant set ("occupants") of each property. */
  class Store {
    var properties: map<int, Property>
    var tenants: set<string>
    var occupants: map<int, set<string>>
    var leases: seq<Lease>
    var applications: seq<Application>
    var nextLeaseId: int
    var nextApplicationId: int

    /** Keys match rows, every reference resolves, and new identifiers are fresh. */
    ghost predicate Valid()
      reads this
    {
      Consistent(properties, tenants, occupants, leases, applications, nextLeaseId, nextApplicationId)
    }

    /** An empty database. */
    constructor ()
      ensures Valid()
      ensures properties == map[] && tenants == {} && occupants == map[]
      ensures leases == [] && applications == []
    {
      properties := map[];
      tenants := {};
      occupants := map[];
      leases := [];
      applications := [];
      nextLeaseId := 1;
      nextApplicationId := 1;
    }

    /**
     * A property without occupants, and a tenant, as the other handlers create them.
     * Only what the application handlers need to find is modelled.
     */
    method AddProperty(p: Property)
      requires Valid()
      requires p.id !in properties
      modifies this
      ensures Valid()
      ensures properties == old(properties)[p.id := p]
      ensures occupants == old(occupants)[p.id := {}]
      ensures tenants == old(tenants) && leases == old(leases) && applications == old(applications)
    {
      properties := properties[p.id := p];
      occupants := occupants[p.id := {}];
    }

    method AddTenant(cognitoId: string)
      requires Valid()
      modifies this
      ensures Valid()
      ensures tenants == old(tenants) + {cognitoId}
      ensures properties == old(properties) && occupants == old(occupants)
      ensures leases == old(leases) && applications == old(applications)
    {
      tenants := tenants + {cognitoId};
    }

    /**
     * `createApplication` as its `$transaction` wrapper intends it: `propertyId` is
     * `Number(propertyId)` of the body and `now` the clock. A missing property is 404;
     * otherwise a one-year lease at the property's rent and deposit and an application
     * linked to it are written together, so an unknown tenant or a status the column does
     * not accept leaves both tables as they were and answers 500. The handler as written
     * is `CreateApplicationAsWritten`.
     */
    method CreateApplication(tenantCognitoId: string, propertyId: Num, message: string, name: string,
                             email: string, phoneNumber: string, status: string, now: Date)
      returns (r: Response)
      requires Valid()
      modifies this
      ensures Valid()
      ensures properties == old(properties) && tenants == old(tenants) && occupants == old(occupants)
      ensures propertyId.NaN? ==> r == ServerError("Error creating application")
      ensures propertyId.Finite? && propertyId.value !in properties ==> r == NotFound("Property not found")
      ensures r.NotFound? <==> propertyId.Finite? && propertyId.value !in properties
      ensures !r.Ok?
      ensures r.Created? <==>
                propertyId.Finite? && propertyId.value in properties
                && tenantCognitoId in tenants && ParseStatus(status).Some?
      ensures r.NotFound? || r.ServerError? ==>
                leases == old(leases) && applications == old(applications)
                && nextLeaseId == old(nextLeaseId) && nextApplicationId == old(nextApplicationId)
      ensures r.Created? ==>
                var p := properties[propertyId.value];
                var lease := Lease(old(nextLeaseId), tenantCognitoId, p.id, now, OneYearLater(now),
                                   p.pricePerMonth, p.securityDeposit);
                && leases == old(leases) + [lease]
                && r.application == Application(old(nextApplicationId), tenantCognitoId, p.id,
                                                ParseStatus(status).value, message, name, email,
                                                phoneNumber, now, Some(lease.id))
                && applications == old(applications) + [r.application]
    {
      if propertyId.NaN? {
        return ServerError("Error creating application");
      }
      if propertyId.value !in properties {
        return NotFound("Property not found");
      }
      var p := properties[propertyId.value];
      var parsed := ParseStatus(status);
      if tenantCognitoId !in tenants || parsed.None? {
        // neither insert is kept
        return ServerError("Error creating application");
      }
      var lease := InsertLease(tenantCognitoId, p, now);
      var app := Application(nextApplicationId, tenantCognitoId, p.id, parsed.value, message, name,
                             email, phoneNumber, now, Some(lease.id));
      InsertApplication(app);
      r := Created(app);
    }

    /**
     * `createApplication` as written: the `$transaction` callback ignores the transaction
     * client it is given and sends both inserts through the global client, so each
     * commits on its own. The lease insert fails for an unknown tenant, whose reference
     * does not resolve. When the lease insert succeeds and the application insert then
     * fails on a status the column rejects, the handler answers 500 and the new lease
     * stays.
     */
    method CreateApplicationAsWritten(tenantCognitoId: string, propertyId: Num, message: string, name: string,
                                      email: string, phoneNumber: string, status: string, now: Date)
      returns (r: Response)
      requires Valid()
      modifies this
      ensures Valid()
      ensures properties == old(properties) && tenants == old(tenants) && occupants == old(occupants)
      ensures propertyId.NaN? ==> r == ServerError("Error creating application")
      ensures propertyId.Finite? && propertyId.value !in properties ==> r == NotFound("Property not found")
      ensures r.NotFound? <==> propertyId.Finite? && propertyId.value !in properties
      ensures !r.Ok?
      ensures r.Created? <==>
                propertyId.Finite? && propertyId.value in properties
                && tenantCognitoId in tenants && ParseStatus(status).Some?
      ensures !(propertyId.Finite? && propertyId.value in properties && tenantCognitoId in tenants) ==>
                leases == old(leases) && nextLeaseId == old(nextLeaseId)
      ensures propertyId.Finite? && propertyId.value in properties && tenantCognitoId in tenants ==>
                var p := properties[propertyId.value];
                leases == old(leases) + [Lease(old(nextLeaseId), tenantCognitoId, p.id, now, OneYearLater(now),
                                               p.pricePerMonth, p.securityDeposit)]
                && nextLeaseId == old(nextLeaseId) + 1
      ensures !r.Created? ==> applications == old(applications) && nextApplicationId == old(nextApplicationId)
      ensures r.Created? ==>
                var p := properties[propertyId.value];
                && r.application == Application(old(nextApplicationId), tenantCognitoId, p.id,
                                                ParseStatus(status).value, message, name, email,
                                                phoneNumber, now, Some(old(nextLeaseId)))
                && applications == old(applications) + [r.application]
    {
      if propertyId.NaN? {
        return ServerError("Error creating application");
      }
      if propertyId.value !in properties {
        return NotFound("Property not found");
      }
      var p := properties[propertyId.value];
      if tenantCognitoId !in tenants {
        // the lease insert itself fails
        return ServerError("Error creating application");
      }
      var lease := InsertLease(tenantCognitoId, p, now);
      var parsed := ParseStatus(status);
      if parsed.None? {
        // the application insert fails; the lease is already committed
        return ServerError("Error creating application");
      }
      var app := Application(nextApplicationId, tenantCognitoId, p.id, parsed.value, message, name,
                             email, phoneNumber, now, Some(lease.id));
      InsertApplication(app);
      r := Created(app);
    }

    /** `lease.create`: a one-year lease of property `p` to `tenant`, under the next identifier. */
    method InsertLease(tenant: string, p: Property, now: Date) returns (lease: Lease)
      requires Valid() && p.id in properties && properties[p.id] == p && tenant in tenants
      modifies this
      ensures Valid()
      ensures lease == Lease(old(nextLeaseId), tenant, p.id, now, OneYearLater(now), p.pricePerMonth, p.securityDeposit)
      ensures leases == old(leases) + [lease] && nextLeaseId == old(nextLeaseId) + 1
      ensures properties == old(properties) && tenants == old(tenants) && occupants == old(occupants)
      ensures applications == old(applications) && nextApplicationId == old(nextApplicationId)
      ensures forall id :: HasLease(old(leases), id) ==> HasLease(leases, id)
      ensures HasLease(leases, lease.id)
    {
      lease := Lease(nextLeaseId, tenant, p.id, now, OneYearLater(now), p.pricePerMonth, p.securityDeposit);
      HasLeaseAppend(leases, lease);
      leases := leases + [lease];
      nextLeaseId := nextLeaseId + 1;
    }

    /** `application.create`: the row `app`, whose references resolve, under the next identifier. */
    method InsertApplication(app: Application)
      requires Valid() && app.id == nextApplicationId
      requires app.propertyId in properties && app.tenantCognitoId in tenants
      requires app.leaseId.Some? ==> HasLease(leases, app.leaseId.value)
      modifies this
      ensures Valid()
      ensures applications == old(applications) + [app] && nextApplicationId == old(nextApplicationId) + 1
      ensures properties == old(properties) && tenants == old(tenants) && occupants == old(occupants)
      ensures leases == old(leases) && nextLeaseId == old(nextLeaseId)
    {
      applications := applications + [app];
      nextApplicationId := nextApplicationId + 1;
    }

    /**
     * `updateApplicationStatus`: `id` is the route parameter and `status` the body's field,
     * `None` when the body has none. `"Approved"` writes a new one-year lease for the
     * applicant at the property's rent and deposit, adds the applicant to the property's
     * tenants and points the application at the new lease; any other status only rewrites
     * the status. The current status is not consulted.
     */
    method UpdateApplicationStatus(id: string, status: Option<string>, now: Date) returns (r: Response)
      requires Valid()
      modifies this
      ensures Valid()
      ensures properties == old(properties) && tenants == old(tenants)
      ensures nextApplicationId == old(nextApplicationId)
      ensures Number(id).NaN? ==> r == ServerError("Error updating application status")
      ensures !r.Created?
      ensures r.NotFound? <==> Number(id).Finite? && IndexOf(old(applications), Number(id).value).None?
      ensures r.NotFound? ==> r.message == "Application not found"
      ensures r.ServerError? <==> Number(id).NaN? || (Number(id).Finite? && IndexOf(old(applications), Number(id).value).Some?
                                                    && Restatus(old(applications)[IndexOf(old(applications), Number(id).value).value], status).None?)
      ensures !r.Ok? ==>
                leases == old(leases) && applications == old(applications) && occupants == old(occupants)
                && nextLeaseId == old(nextLeaseId)
      ensures r.Ok? ==> Number(id).Finite? && IndexOf(old(applications), Number(id).value).Some?
      ensures r.Ok? && status == Some("Approved") ==>
                var k := IndexOf(old(applications), Number(id).value).value;
                var a := old(applications)[k];
                var lease := ApprovalLease(a, properties[a.propertyId], old(nextLeaseId), now);
                && leases == old(leases) + [lease]
                && occupants == old(occupants)[a.propertyId := old(occupants)[a.propertyId] + {a.tenantCognitoId}]
                && applications == old(applications)[k := a.(status := Approved, leaseId := Some(lease.id))]
                && r.application == applications[k]
      ensures r.Ok? && status != Some("Approved") ==>
                var k := IndexOf(old(applications), Number(id).value).value;
                var a := old(applications)[k];
                && Restatus(a, status).Some?
                && leases == old(leases) && occupants == old(occupants)
                && applications == old(applications)[k := Restatus(a, status).value]
                && r.application == applications[k]
    {
      var n := Number(id);
      if n.NaN? {
        return ServerError("Error updating application status");
      }
      var found := IndexOf(applications, n.value);
      if found.None? {
        return NotFound("Application not found");
      }
      var k := found.value;
      if status == Some("Approved") {
        Approve(k, now);
        r := Ok(applications[k]);
      } else {
        var updated := Restatus(applications[k], status);
        if updated.None? {
          return ServerError("Error updating application status");
        }
        Rewrite(k, updated.value);
        r := Ok(applications[k]);
      }
    }

    /**
     * The `"Approved"` branch: the lease insert, the tenant connect on the property and
     * the application update, in that order.
     */
    method Approve(k: nat, now: Date)
      requires Valid() && k < |applications|
      modifies this
      ensures Valid()
      ensures properties == old(properties) && tenants == old(tenants)
      ensures nextLeaseId == old(nextLeaseId) + 1 && nextApplicationId == old(nextApplicationId)
      ensures var a := old(applications)[k];
              var lease := ApprovalLease(a, properties[a.propertyId], old(nextLeaseId), now);
              && leases == old(leases) + [lease]
              && occupants == old(occupants)[a.propertyId := old(occupants)[a.propertyId] + {a.tenantCognitoId}]
              && applications == old(applications)[k := a.(status := Approved, leaseId := Some(lease.id))]
    {
      var a := applications[k];
      var lease := ApprovalLease(a, properties[a.propertyId], nextLeaseId, now);
      ApprovalKeepsConsistent(properties, tenants, occupants, leases, applications, nextLeaseId,
                              nextApplicationId, k, now);
      leases := leases + [lease];
      nextLeaseId := nextLeaseId + 1;
      occupants := occupants[a.propertyId := occupants[a.propertyId] + {a.tenantCognitoId}];
      applications := applications[k := a.(status := Approved, leaseId := Some(lease.id))];
    }

    /** The other branch: the application row `k` replaced by its restatused version. */
    method Rewrite(k: nat, updated: Application)
      requires Valid() && k < |applications| && updated == applications[k].(status := updated.status)
      modifies this
      ensures Valid()
      ensures applications == old(applications)[k := updated]
      ensures properties == old(properties) && tenants == old(tenants) && occupants == old(occupants)
      ensures leases == old(leases) && nextLeaseId == old(nextLeaseId) && nextApplicationId == old(nextApplicationId)
    {
      applications := applications[k := updated];
    }

    /**
     * `listApplications`: the applications in scope, each with the latest lease of its
     * tenant at its property and that lease's next payment date.
     */
    method ListApplications(userId: Option<string>, userType: Option<string>) returns (views: seq<ApplicationView>)
      ensures var listed := Listed(applications, properties, ScopeOf(userId, userType));
        && |views| == |listed|
        && forall i :: 0 <= i < |views| ==>
             && views[i].application == listed[i]
             && (views[i].lease.None? <==>
                   forall j :: 0 <= j < |leases| ==> !LeaseOf(leases[j], listed[i].tenantCognitoId, listed[i].propertyId))
             && (views[i].lease.Some? ==>
                   && IsLatestLease(leases, listed[i].tenantCognitoId, listed[i].propertyId, views[i].lease.value.lease)
                   && views[i].lease.value.nextPaymentDate == NextPaymentDate(views[i].lease.value.lease.startDate))
    {
      var listed := Listed(applications, properties, ScopeOf(userId, userType));
      views := [];
      var k := 0;
      while k < |listed|
        invariant 0 <= k <= |listed| && |views| == k
        invariant forall i :: 0 <= i < k ==>
             && views[i].application == listed[i]
             && (views[i].lease.None? <==>
                   forall j :: 0 <= j < |leases| ==> !LeaseOf(leases[j], listed[i].tenantCognitoId, listed[i].propertyId))
             && (views[i].lease.Some? ==>
                   && IsLatestLease(leases, listed[i].tenantCognitoId, listed[i].propertyId, views[i].lease.value.lease)
                   && views[i].lease.value.nextPaymentDate == NextPaymentDate(views[i].lease.value.lease.startDate))
      {
        var a := listed[k];
        var latest := FindLatestLease(leases, a.tenantCognitoId, a.propertyId);
        var view := if latest.Some?
          then ApplicationView(a, Some(LeaseView(latest.value, NextPaymentDate(latest.value.startDate))))
          else ApplicationView(a, None);
        views := views + [view];
        k := k + 1;
      }
    }
  }

  /**
   * Approval has no guard on the current status: approving the same application twice
   * writes two leases.
   */
  method ApproveTwice(store: Store, id: int, now: Date)
    requires store.Valid() && IndexOf(store.applications, id).Some?
    modifies store
    ensures store.Valid()
    ensures |store.leases| == |old(store.leases)| + 2
    ensures store.leases[..|old(store.leases)|] == old(store.leases)
  {
    ApproveById(store, id, now);
    ApproveById(store, id, now);
  }

  /** One approval of an existing application through the handler. */
  method ApproveById(store: Store, id: int, now: Date)
    requires store.Valid() && IndexOf(store.applications, id).Some?
    modifies store
    ensures store.Valid() && IndexOf(store.applications, id).Some?
    ensures |store.leases| == |old(store.leases)| + 1
    ensures store.leases[..|old(store.leases)|] == old(store.leases)
  {
    NumberIntToString(id);
    var r := store.UpdateApplicationStatus(IntToString(id), Some("Approved"), now);
    assert r.Ok?;
    ghost var k := IndexOf(old(store.applications), id).value;
    assert store.applications[k].id == id;
  }

  /**
   * The handler as written leaves a lease that no application refers to: for an existing
   * property and tenant and the status `Bogus`, it answers 500, writes no application,
   * and still appends a lease.
   */
  method OrphanLeaseAsWritten(store: Store, tenantCognitoId: string, propertyId: int, now: Date)
    returns (r: Response)
    requires store.Valid()
    requires propertyId in store.properties && tenantCognitoId in store.tenants
    modifies store
    ensures r.ServerError?
    ensures |store.leases| == |old(store.leases)| + 1 && store.applications == old(store.applications)
    ensures forall a :: a in store.applications ==> a.leaseId != Some(store.leases[|store.leases| - 1].id)
  {
    assert ParseStatus("Bogus").None?;
    r := store.CreateApplicationAsWritten(tenantCognitoId, Finite(propertyId), "", "", "", "", "Bogus", now);
    OldLeasesOlder(old(store.leases), old(store.applications), old(store.nextLeaseId));
  }

  /** Every lease an application refers to has an identifier below `nextLeaseId`. */
  lemma OldLeasesOlder(leases: seq<Lease>, applications: seq<Application>, nextLeaseId: int)
    requires forall i :: 0 <= i < |leases| ==> leases[i].id < nextLeaseId
    requires forall i :: 0 <= i < |applications| && applications[i].leaseId.Some? ==>
               HasLease(leases, applications[i].leaseId.value)
    ensures forall a :: a in applications ==> a.leaseId != Some(nextLeaseId)
  {
    forall a | a in applications ensures a.leaseId != Some(nextLeaseId) {
      if a.leaseId.Some? {
        var k :| 0 <= k < |applications| && applications[k] == a;
        var i :| 0 <= i < |leases| && leases[i].id == a.leaseId.value;
      }
    }
  }
}
