/** The `Event` database model: a record whose fields are updated in place,
    its pre-save hooks that put `tags` in canonical order, and the whole-record
    merge `update(with:)`. */
module EventModel {

  import opened Wrappers
  import opened StringOrder

  /** A point in time. No operation of this model compares dates; the
      ascending-`startDate` page order is kept by the pagination library. */
  type Date = int

  /** An optional latitude/longitude pair attached to an event. */
  datatype Coordinates = Coordinates(latitude: real, longitude: real)

  /** The ten data fields of an event, everything but its identity. */
  datatype EventData = EventData(
    name: string,
    logo: string,
    tags: seq<string>,
    url: string,
    country: string,
    city: string,
    coordinates: Option<Coordinates>,
    startDate: Date,
    endDate: Date,
    isActive: bool)

  /** The data an event holds once the pre-save hooks have run: the same
      fields with `tags` sorted. */
  function Normalized(d: EventData): (n: EventData)
    ensures Sorted(n.tags)
    ensures multiset(n.tags) == multiset(d.tags) && |n.tags| == |d.tags|
    ensures n.(tags := d.tags) == d
  {
    d.(tags := Sort(d.tags))
  }

  /** Normalising data that is already normalised changes nothing. */
  lemma NormalizedIdempotent(d: EventData)
    ensures Normalized(Normalized(d)) == Normalized(d)
  {
    SortIdempotent(Sort(d.tags));
  }

  /** Events whose tags were submitted in different orders are stored alike. */
  lemma NormalizedIgnoresTagOrder(d: EventData, e: EventData)
    requires d.(tags := e.tags) == e
    requires multiset(d.tags) == multiset(e.tags)
    ensures Normalized(d) == Normalized(e)
  {
    SortCanonical(d.tags, e.tags);
  }

  class Event {
    /** Assigned by the database on first save; absent before. */
    var id: Option<int>
    var name: string
    var logo: string
    var tags: seq<string>
    var url: string
    var country: string
    var city: string
    var coordinates: Option<Coordinates>
    var startDate: Date
    var endDate: Date
    var isActive: bool

    /** The event's data fields as a value. */
    function Data(): EventData
      reads this
    {
      EventData(name, logo, tags, url, country, city, coordinates, startDate, endDate, isActive)
    }

    /** A new, unsaved event holding the given data and no identity. */
    constructor (name: string, logo: string, tags: seq<string>, url: string,
                 country: string, city: string, coordinates: Option<Coordinates>,
                 startDate: Date, endDate: Date, isActive: bool)
      ensures id == None
      ensures this.name == name && this.logo == logo && this.tags == tags
      ensures this.url == url && this.country == country && this.city == city
      ensures this.coordinates == coordinates
      ensures this.startDate == startDate && this.endDate == endDate
      ensures this.isActive == isActive
    {
      this.id := None;
      this.name := name;
      this.logo := logo;
      this.tags := tags;
      this.url := url;
      this.country := country;
      this.city := city;
      this.coordinates := coordinates;
      this.startDate := startDate;
      this.endDate := endDate;
      this.isActive := isActive;
    }

    /** Hook run before the event is first inserted: sorts `tags` in place
        and hands back the event itself. */
    method WillCreate() returns (r: Event)
      modifies this
      ensures r == this
      ensures Sorted(tags) && multiset(tags) == multiset(old(tags)) && |tags| == |old(tags)|
      ensures tags == Sort(old(tags))
      ensures Sorted(old(tags)) ==> tags == old(tags)
      ensures Data() == Normalized(old(Data()))
      ensures id == old(id)
    {
      SortIdempotent(tags);
      tags := Sort(tags);
      r := this;
    }

    /** Hook run before the event is updated in the database: the same
        normalisation as `WillCreate`. */
    method WillUpdate() returns (r: Event)
      modifies this
      ensures r == this
      ensures Sorted(tags) && multiset(tags) == multiset(old(tags)) && |tags| == |old(tags)|
      ensures tags == Sort(old(tags))
      ensures Sorted(old(tags)) ==> tags == old(tags)
      ensures Data() == Normalized(old(Data()))
      ensures id == old(id)
    {
      SortIdempotent(tags);
      tags := Sort(tags);
      r := this;
    }

    /** Whole-record merge: overwrites every data field with that of `event`,
        keeps this event's identity, and returns this event, not a copy. */
    method Update(event: Event) returns (r: Event)
      modifies this
      ensures r == this
      ensures Data() == old(event.Data())
      ensures id == old(id)
      ensures unchanged(event)
    {
      name := event.name;
      logo := event.logo;
      tags := event.tags;
      url := event.url;
      country := event.country;
      city := event.city;
      coordinates := event.coordinates;
      startDate := event.startDate;
      endDate := event.endDate;
      isActive := event.isActive;
      r := this;
    }
  }
}
