/** The stack of open brackets that the JSON reader and the JSON writer both keep. */
module JsonLevels {
  import opened Options

  datatype Lvl = ObjLvl | ArrLvl

  const MAX_DEPTH := 24

  function Top(lvls: seq<Lvl>): Option<Lvl> {
    if lvls == [] then None else Some(lvls[|lvls| - 1])
  }

  function Pop(lvls: seq<Lvl>): seq<Lvl>
    requires lvls != []
  {
    lvls[..|lvls| - 1]
  }
}
