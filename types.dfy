/**
 * The domain records of the application: places on the globe, feed events and
 * the navigation tabs. Coordinates and ratings are JavaScript numbers, modelled
 * as reals.
 */
module Types {

  /** A value that may be absent (`null` in the application). */
  datatype Option<T> = None | Some(value: T)

  datatype NavTab = MAP | EVENTS | CREATE | PROFILE

  datatype Category = Transport | Culture | Entertainment | Nature | Cyber

  datatype Coordinates = Coordinates(lat: real, lng: real)

  datatype Place = Place(
    id: string,
    name: string,
    address: string,
    description: string,
    category: Category,
    coordinates: Coordinates,
    distance: string,
    imageUrl: string,
    rating: real,
    tags: seq<string>)

  datatype EventStatus = LIVE | UPCOMING | RECORDED

  datatype Event = Event(
    id: string,
    title: string,
    locationName: string,
    distance: string,
    startTime: string,
    status: EventStatus,
    imageUrl: string,
    category: string)
}
