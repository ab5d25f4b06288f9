/** Settings read from the configuration, kept within a range. */
module Settings {
  import opened Options
  import opened Results
  import opened YamlMerge
  import opened YamlTrees
  import opened Configuration
  import opened Loading
  import opened Units

  /** The text of the scalar at a path. */
  function Setting(config: Yaml, path: seq<string>): Option<string> {
    match Lookup(config, path)
    case At(Scalar(text)) => Some(text)
    case _ => None
  }

  method GetString(parser: ConfigurationParser, path: seq<string>, ghost t: Tree) returns (r: Option<string>)
    requires Holding(parser.config, t)
    ensures r == Setting(Val(t), path)
  {
    var found, u := parser.GetConfig(path, t);
    if found.Some? && found.value.shape.SScalar? {
      r := Some(found.value.shape.text);
    } else {
      r := None;
    }
  }

  /** The parsed setting if it is there and in range, the parsed default otherwise. A setting that does
      not parse counts as not there; a default that does not parse is the caller's error. */
  method GetParsedConfigInRangeOrDefault(parser: ConfigurationParser, defaultValue: string, min: int, max: int,
                                         parse: string -> Result<int, Error>, path: seq<string>, ghost t: Tree)
    returns (r: Result<int, Error>)
    requires Holding(parser.config, t)
    ensures (r.Ok? && min <= r.value <= max) || r == parse(defaultValue)
    ensures var s := Setting(Val(t), path);
            if min < max && s.Some? && parse(s.value).Ok? && min <= parse(s.value).value <= max then r == parse(s.value)
            else r == parse(defaultValue)
  {
    if min >= max {
      return parse(defaultValue);
    }
    var result := GetString(parser, path, t);
    if result.Some? {
      var parsed := parse(result.value);
      if parsed.Ok? && min <= parsed.value && parsed.value <= max {
        return parsed;
      }
    }
    return parse(defaultValue);
  }

  /** As above for a setting of another type, with bounds that may be absent. */
  method GetConfigInRangeOrDefault(parser: ConfigurationParser, defaultValue: int, min: Option<int>, max: Option<int>,
                                   convert: string -> Option<int>, path: seq<string>, ghost t: Tree)
    returns (r: int)
    requires Holding(parser.config, t)
    ensures ((min.Some? ==> min.value <= r) && (max.Some? ==> r <= max.value)) || r == defaultValue
    ensures var s := Setting(Val(t), path);
            if (min.None? || max.None? || min.value < max.value) && s.Some? && convert(s.value).Some? &&
               (min.Some? ==> min.value <= convert(s.value).value) && (max.Some? ==> convert(s.value).value <= max.value)
            then r == convert(s.value).value else r == defaultValue
  {
    if min.Some? && max.Some? && min.value >= max.value {
      return defaultValue;
    }
    var text := GetString(parser, path, t);
    if text.Some? {
      var result := convert(text.value);
      if result.Some? && (min.None? || result.value >= min.value) && (max.None? || result.value <= max.value) {
        return result.value;
      }
    }
    return defaultValue;
  }

  /** The last group file that sets a path to a scalar decides the setting, whatever the local file and the
      files before it say. Only what an empty first file made the configuration forget is not set. */
  lemma LastFileDecides(config: Yaml, values: seq<Option<Yaml>>, i: nat, path: seq<string>)
    requires Loadable(values) && path != [] && i < UsableCount(config, values, 0) && values[i].Some?
    requires Walk(values[i].value, path).At? && Walk(values[i].value, path).value.Scalar?
    requires forall j :: i < j < UsableCount(config, values, 0) && values[j].Some? ==> Silent(values[j].value, path)
    ensures var k := UsableCount(config, values, 0); var text := Walk(values[i].value, path).value.text;
            && Setting(MergedUpTo(config, values, k), path) == Some(text)
            && Setting(LoadedConfig(config, values), path) ==
               if k < |values| && Forgets(config, values) then None else Some(text)
  {
    var k := UsableCount(config, values, 0);
    hide Usable, UsableCount, MergedUpTo, MergeFiles, Mergeable, WellFormed, Silent;
    UsableMergeable(config, values, k);
    UsableMerges(config, values, k);
    LastScalarWins(config, Loaded(values[..k]), i, path);
    WalkIsLookup(MergedUpTo(config, values, k), path);
  }

  /** A setting of the local file on which every group file that is used is silent stays, whether or not a
      later group file cannot be used. */
  lemma UntouchedSetting(config: Yaml, values: seq<Option<Yaml>>, path: seq<string>)
    requires Loadable(values) && path != [] && Walk(config, path).At? && Walk(config, path).value.Scalar?
    requires forall j :: 0 <= j < UsableCount(config, values, 0) && values[j].Some? ==> Silent(values[j].value, path)
    ensures Setting(LoadedConfig(config, values), path) == Setting(config, path) == Some(Walk(config, path).value.text)
  {
    var k := UsableCount(config, values, 0);
    hide Usable, UsableCount, MergedUpTo, MergeFiles, Mergeable, WellFormed, Silent;
    UsableMergeable(config, values, k);
    UsableMerges(config, values, k);
    UntouchedPathKeeps(config, Loaded(values[..k]), path);
    WalkIsLookup(config, path);
    WalkIsLookup(MergedUpTo(config, values, k), path);
  }
}
