/** The parsed layout configuration and the option lookup the pager uses on
    it. Reading and validating the ini text is outside this module; what it
    sees is the resulting tree of sections, labelled subsections and values. */
module LayoutConfig {
  import opened Results
  import opened Strings

  /** A configuration value after parsing: a number, a word (a symbolic
      token such as `left_margin`, or other text), a boolean, or a list.
      Numeric text is represented directly as `Num`. */
  datatype Value = Num(r: real) | Word(w: string) | Flag(b: bool) | List(items: seq<Value>)

  /** A labelled subsection (`[[label]]`): its own options and, for options
      that differ per paper size and orientation, nested
      `[[[Paper]]]` / `[[[[Orientation]]]]` groups. */
  datatype Subsection = Subsection(
    options: map<string, Value>,
    papers: map<string, map<string, map<string, Value>>>)

  /** A top-level section keeps its labels in declaration order. */
  type Section = seq<(string, Subsection)>

  type Layout = map<string, Section>

  /** The subsection declared under `key` (the first one, as in a dict). */
  function Find(sec: Section, key: string): (r: Option<Subsection>)
    ensures r.None? <==> forall i :: 0 <= i < |sec| ==> sec[i].0 != key
    ensures r.Some? ==> exists i :: 0 <= i < |sec| && sec[i] == (key, r.value)
  {
    if sec == [] then None
    else if sec[0].0 == key then Some(sec[0].1)
    else Find(sec[1..], key)
  }

  function Keys(sec: Section): (ks: seq<string>)
    ensures |ks| == |sec|
    ensures forall i :: 0 <= i < |sec| ==> ks[i] == sec[i].0
  {
    seq(|sec|, i requires 0 <= i < |sec| => sec[i].0)
  }

  function Lookup(cfg: Layout, section: string, entry: string): Option<Subsection>
  {
    if section in cfg then Find(cfg[section], entry) else None
  }

  /** `config[section][entry][option]`, or None on a KeyError. */
  function Direct(cfg: Layout, section: string, entry: string, option: string): Option<Value>
  {
    match Lookup(cfg, section, entry)
    case Some(sub) => if option in sub.options then Some(sub.options[option]) else None
    case None => None
  }

  /** `config[section][entry][Paper][Orientation][option]`, with both names
      title-cased, or None on a KeyError. */
  function ByPaper(cfg: Layout, section: string, entry: string, option: string,
                   paper: string, orientation: string): Option<Value>
  {
    match Lookup(cfg, section, entry)
    case Some(sub) =>
      var p := Title(paper);
      var o := Title(orientation);
      if p in sub.papers && o in sub.papers[p] && option in sub.papers[p][o]
      then Some(sub.papers[p][o][option])
      else None
    case None => None
  }

  /** `_parse_option`: the label's own option wins; failing that, the option
      of the group for the current paper size and orientation; else None. */
  function ParseOption(cfg: Layout, section: string, entry: string, option: string,
                       paper: string, orientation: string): (r: Option<Value>)
    ensures Direct(cfg, section, entry, option).Some? ==> r == Direct(cfg, section, entry, option)
    ensures r.None? <==>
      Direct(cfg, section, entry, option).None? && ByPaper(cfg, section, entry, option, paper, orientation).None?
    ensures Direct(cfg, section, entry, option).None? ==>
      r == ByPaper(cfg, section, entry, option, paper, orientation)
  {
    match Direct(cfg, section, entry, option)
    case Some(v) => Some(v)
    case None => ByPaper(cfg, section, entry, option, paper, orientation)
  }

  /** Python truthiness of an optional value. */
  predicate Truthy(v: Option<Value>)
  {
    match v
    case None => false
    case Some(Num(r)) => r != 0.0
    case Some(Word(w)) => w != ""
    case Some(Flag(b)) => b
    case Some(List(xs)) => xs != []
  }

  /** `float(v)`: numbers and booleans convert, words and lists do not. */
  function AsNumber(v: Value): (r: Option<real>)
    ensures r.Some? <==> v.Num? || v.Flag?
    ensures v.Num? ==> r == Some(v.r)
  {
    match v
    case Num(x) => Some(x)
    case Flag(b) => Some(if b then 1.0 else 0.0)
    case _ => None
  }

  /** A number read from an optional value: a missing value is an error
      (Python multiplies or adds None and fails). */
  function Number(v: Option<Value>, key: string): (r: Result<real>)
    ensures v.None? ==> r == Err(MissingOption(key))
    ensures v.Some? && v.value.Num? ==> r == Ok(v.value.r)
    ensures r.Ok? <==> v.Some? && AsNumber(v.value).Some?
  {
    match v
    case None => Err(MissingOption(key))
    case Some(x) =>
      match AsNumber(x)
      case Some(n) => Ok(n)
      case None => Err(InvalidValue(key))
  }

  /** `float(coordinate)`: anything that is not numeric is an invalid position. */
  function Coordinate(v: Value, key: string): (r: Result<real>)
    ensures r.Ok? <==> AsNumber(v).Some?
    ensures v.Num? ==> r == Ok(v.r)
  {
    match AsNumber(v)
    case Some(n) => Ok(n)
    case None => Err(InvalidPosition(key))
  }

  /** `v[i]` on a position list. */
  function Item(v: Option<Value>, i: nat, key: string): (r: Result<Value>)
    ensures r.Ok? <==> v.Some? && v.value.List? && i < |v.value.items|
    ensures r.Ok? ==> r.value == v.value.items[i]
  {
    match v
    case Some(List(xs)) => if i < |xs| then Ok(xs[i]) else Err(InvalidPosition(key))
    case _ => Err(InvalidPosition(key))
  }
}
