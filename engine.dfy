/** The table store: a dictionary of named tables (competition/warehouse/engine.py). */
module Warehouse {
  import opened Wrappers
  import opened Tables

  class Engine<T> {
    var tables: map<string, T>

    /** A new engine holds no tables. */
    constructor ()
      ensures tables == map[]
    {
      tables := map[];
    }

    /** Stores `data` under `name`; an existing table of that name is replaced, the others stay. */
    method Register(name: string, data: T)
      modifies this
      ensures tables == old(tables)[name := data]
      ensures forall n :: n != name && n in old(tables) ==> n in tables && tables[n] == old(tables)[n]
    {
      tables := tables[name := data];
    }

    /** The table last registered under `name`, or the dictionary's KeyError. */
    method GetTable(name: string) returns (r: Result<T, Exception>)
      ensures name in tables ==> r == Success(tables[name])
      ensures name !in tables ==> r == Failure(KeyError(name))
    {
      if name in tables {
        r := Success(tables[name]);
      } else {
        r := Failure(KeyError(name));
      }
    }
  }

  /** What a caller can rely on: a registered table comes back, a re-registration wins. */
  method RegisterThenGet<T>(a: T, b: T)
  {
    var engine := new Engine<T>();
    var missing := engine.GetTable("geo");
    assert missing == Failure(KeyError("geo"));
    engine.Register("geo", a);
    engine.Register("sample", b);
    var got := engine.GetTable("geo");
    assert got == Success(a);
    engine.Register("geo", b);
    got := engine.GetTable("geo");
    assert got == Success(b);
  }
}
