/** What the model takes from the Python runtime without modelling it: the
    text `json.dumps` and `str()` give for lists and dictionaries, and the
    host's local time zone. */
module Runtime {
  import opened Json
  import opened Digits

  /** `dumps` is `json.dumps(v)`, `dumpsIndented` is `json.dumps(v, indent=2)`,
      `repr` is `str(v)` of a list or a dictionary; `utcOffset` is the host's
      fixed offset from UTC, in minutes east. */
  datatype Host = Host(
    dumps: JSON -> string,
    dumpsIndented: JSON -> string,
    repr: JSON -> string,
    utcOffset: int)

  /** `str(v)`, the text an f-string placeholder `{v}` gives. */
  function Text(host: Host, v: JSON): (r: string)
    ensures v.Str? ==> r == v.s
  {
    match v
    case Null => "None"
    case Bool(b) => if b then "True" else "False"
    case Int(i) => IntText(i)
    case Str(s) => s
    case _ => host.repr(v)
  }
}
