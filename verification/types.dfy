/**
 * The records the REST API returns (src/lib/api/types.ts). Identifiers and
 * timestamps are opaque strings owned by the server; numbers are integers.
 */
module Types {
  import opened Wrappers

  datatype Activity = Activity(
    id: string, title: string, date: string, imageUrl: Option<string>, description: string)

  datatype Donation = Donation(
    id: string, title: string, date: string, description: string, location: string,
    imageUrl: Option<string>)

  datatype RsvpEntry = RsvpEntry(
    id: string, eventId: string, fullName: string, email: string,
    mpesaPhone: string, whatsappPhone: string, createdAt: string)

  /** An event; `rsvpCount` is derived by the server and may be absent. */
  datatype Event = Event(
    id: string, title: string, date: string, location: string, description: string,
    seatsAvailable: int, fee: int, googleMapsLink: string, imageUrl: Option<string>,
    rsvpCount: Option<int>)

  datatype Partner = Partner(id: string, name: string, logoUrl: string)

  datatype Contact = Contact(
    id: string, fullName: string, email: string, message: string, createdAt: string)

  datatype Poster = Poster(
    id: string, title: Option<string>, startDate: string, endDate: string,
    imageUrl: string, active: bool)

  /** One month of the activities metrics endpoint. */
  datatype ActivityMonthlyStats = ActivityMonthlyStats(name: Option<string>, activities: int)

  /** One month of the donations metrics endpoint. */
  datatype DonationsMonthlyStats = DonationsMonthlyStats(
    name: Option<string>, donations: int, uniqueLocations: int)

  /** One point of the dashboard's activity chart. */
  datatype ActivityData = ActivityData(name: string, donations: int, events: int)
}
