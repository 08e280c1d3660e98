/** The records the services exchange and store, and the event vocabulary
    of shared/events/events.go. Timestamps are integers (nanoseconds since
    the Unix epoch); floating-point coordinates are only ever copied, so
    their type is left abstract. */
module Domain {
  import opened Errors

  // ----- events -----

  /** Topics of the saga's commands and notifications. */
  const ResourceCommandFind: string := "resource.cmd.find"
  const DisasterCommandDelete: string := "disaster.cmd.delete"
  const UserNotifyAdminReview: string := "user.notify.admin_review"

  /** A float64 value. Nothing in the core computes with one. */
  type Float(==)

  datatype Coordinates = Coordinates(latitude: Float, longitude: Float)

  /** events.DisasterEventCreatedPayload, the value of the saga's messages. */
  datatype DisasterEventCreatedPayload = DisasterEventCreatedPayload(
    disasterID: string, location: Coordinates, contributorID: string)

  // ----- disasters -----

  /** The disaster-service's own record (services/disaster-service/types). */
  datatype Disaster = Disaster(
    id: string, title: string, description: string, tags: seq<string>,
    contributorID: string, createdAt: int, updatedAt: int,
    imageURLs: seq<string>, location: Coordinates, status: string)

  /** The stored document of shared/types (an ObjectID `_id`, written here
      as its hex string, and a volunteer rather than a contributor). */
  datatype DisasterDoc = DisasterDoc(
    id: string, title: string, description: string, tags: seq<string>,
    volunteerID: string, createdAt: int, updatedAt: int,
    imageURLs: seq<string>, location: Coordinates, status: string)

  const StatusPending: string := "pending"

  // ----- users -----

  /** A user. The in-memory repository's record and the stored document
      have the same fields; the document's ObjectID is its hex string. */
  datatype User = User(
    id: string, name: string, email: string, password: string,
    avatarURL: string, role: string, createdAt: int, updatedAt: int)

  const AdminRole: string := "admin"
  const ContributorRole: string := "contributor"

  // ----- resources -----

  /** Amenity kinds the resource lookup asks for. */
  const Hospital: string := "hospital"
  const FireStation: string := "fire_station"
  const Police: string := "police"
  const Shelter: string := "shelter"
  const Pharmacy: string := "pharmacy"

  /** A GeoJSON geometry: its type and its coordinates, longitude first. */
  datatype Location = Location(kind: string, coordinates: seq<Float>)

  /** A resource near a disaster; `location` is `None` for a nil pointer. */
  datatype Resource = Resource(
    id: string, name: string, amenityType: string, location: Option<Location>,
    createdAt: int, updatedAt: int)
}
