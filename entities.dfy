/**
 * The database rows the handlers read and write: properties, leases and applications.
 * Prices and sizes are whole numbers here; identifiers are the rows' integer keys and
 * people are named by their identity-provider ("cognito") ids.
 */
module Entities {
  import opened Options
  import opened Calendar

  datatype Property = Property(
    id: int,
    managerCognitoId: string,
    pricePerMonth: int,
    securityDeposit: int,
    beds: int,
    baths: int,
    squareFeet: int,
    propertyType: string,
    amenities: seq<string>,
    highlights: seq<string>,
    isPetsAllowed: bool,
    isParkingIncluded: bool)

  datatype Lease = Lease(
    id: int,
    tenantCognitoId: string,
    propertyId: int,
    startDate: Date,
    endDate: Date,
    rent: int,
    deposit: int)

  /** The values of the application status column. */
  datatype ApplicationStatus = Pending | Denied | Approved

  /** The status a request body names, if it names one the column accepts. */
  function ParseStatus(s: string): (r: Option<ApplicationStatus>)
    ensures r == Some(Approved) <==> s == "Approved"
    ensures r == Some(Denied) <==> s == "Denied"
    ensures r == Some(Pending) <==> s == "Pending"
  {
    if s == "Approved" then Some(Approved)
    else if s == "Denied" then Some(Denied)
    else if s == "Pending" then Some(Pending)
    else None
  }

  datatype Application = Application(
    id: int,
    tenantCognitoId: string,
    propertyId: int,
    status: ApplicationStatus,
    message: string,
    name: string,
    email: string,
    phoneNumber: string,
    applicationDate: Date,
    leaseId: Option<int>)
}
