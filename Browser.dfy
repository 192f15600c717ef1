/**
 * The browser state that the two admin pages share: the tab's
 * `sessionStorage` and the location the router shows.
 */
module Browser {
  import opened Optional

  /** The `sessionStorage` key under which the login page keeps the Basic token. */
  const AuthKey: string := "adminAuth"

  class Session {
    var storage: map<string, string>
    var location: string

    constructor (location: string)
      ensures storage == map[] && this.location == location
    {
      storage := map[];
      this.location := location;
    }

    /** `sessionStorage.getItem("adminAuth")` is truthy: present and not empty. */
    predicate HasAdminAuth()
      reads this
    {
      AuthKey in storage && storage[AuthKey] != ""
    }

    method SetItem(key: string, value: string)
      modifies this`storage
      ensures storage == old(storage)[key := value]
    {
      storage := storage[key := value];
    }

    method RemoveItem(key: string)
      modifies this`storage
      ensures storage == old(storage) - {key}
    {
      storage := storage - {key};
    }

    /** `setLocation(path)`. */
    method SetLocation(path: string)
      modifies this`location
      ensures location == path
    {
      location := path;
    }
  }
}
