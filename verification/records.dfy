/** The read-only views the report engine has of a task and of the
    configuration. Both are collaborators whose own code is not part of this
    model; only what the report reads from them is kept. */
module Records {

  /** A task snapshot: its short-lived `id` (0 once it has none), its
      attributes by name (`uuid`, `project`, `priority`, `entry`, `start`,
      `end`, `wait`, `due`, `recur`, `description`, `fg`, `bg`, ...) and its
      tags. */
  datatype Task = Task(id: int, attributes: map<string, string>, tags: seq<string>)
  {
    /** The attribute's value, or "" when it is absent (`get`). */
    function Get(name: string): string
    {
      if name in attributes then attributes[name] else ""
    }

    /** Whether the attribute is present at all (`has`) (it may be
        present with the empty value). */
    predicate Has(name: string)
    {
      name in attributes
    }

    /** The task with the attribute set to `value` (`set`). */
    function Set(name: string, value: string): (t: Task)
      ensures t.Has(name) && t.Get(name) == value
      ensures t.id == id && t.tags == tags
      ensures forall other :: other != name ==> (t.Has(other) <==> Has(other)) && t.Get(other) == Get(other)
    {
      this.(attributes := attributes[name := value])
    }
  }

  /** The configuration store: string values by key, the keys whose boolean
      reading is true, and the integer readings. The parsing behind
      `getBoolean` and `getInteger` is not part of this model. */
  datatype Config = Config(strings: map<string, string>, flags: set<string>, integers: map<string, int>)
  {
    /** The setting's value, or "" for a key that is not set (`get`). */
    function Get(key: string): string
    {
      if key in strings then strings[key] else ""
    }

    predicate GetBoolean(key: string)
    {
      key in flags
    }

    function GetInteger(key: string): int
    {
      if key in integers then integers[key] else 0
    }
  }
}
