/** The closed variants that generation builds hide no Fahrenheit name and no IP address. */
module SeedTextClean {
  import opened Wrappers
  import opened Text
  import opened IsoTime
  import opened JsonTrees
  import opened RawIpText
  import opened SeedRules
  import opened SeedGenerate

  ghost predicate Unflagged(j: Json, rules: Rules) {
    forall path :: !Flagged(j, path, rules)
  }

  /** An object is clean when none of its own keys is flagged and every value is clean. */
  lemma ObjectClean(fields: seq<Field>, rules: Rules)
    requires forall k :: 0 <= k < |fields| ==>
             !rules.flagsKey(fields[k].key, fields[k].value) && Unflagged(fields[k].value, rules)
    ensures Unflagged(JObj(fields), rules)
  {
    forall path: seq<Step> ensures !Flagged(JObj(fields), path, rules) {
      if Flagged(JObj(fields), path, rules) {
        var j := JObj(fields);
        var node :| Reaches(j, path, node)
                    && ((IsLeaf(node) && rules.flagsLeaf(node))
                        || (path != [] && path[|path| - 1].Key? && rules.flagsKey(path[|path| - 1].name, node)));
        var k :| 0 <= k < |fields| && path[0] == Key(fields[k].key) && Reaches(fields[k].value, path[1..], node);
        assert path[1..] != [] ==> path[1..][|path| - 2] == path[|path| - 1];
        assert Flagged(fields[k].value, path[1..], rules);
      }
    }
  }

  lemma LeafClean(j: Json, rules: Rules)
    requires IsLeaf(j) && !rules.flagsLeaf(j)
    ensures Unflagged(j, rules)
  {
    forall path ensures !Flagged(j, path, rules) {
      if node :| Reaches(j, path, node) { assert path == []; }
    }
  }

  predicate LowerCase(s: string) {
    forall i :: 0 <= i < |s| ==> !('A' <= s[i] <= 'Z')
  }

  /** Lower case, not ending in `f` or `unit`, and missing a letter of `fahrenheit`. */
  predicate CelsiusName(key: string) {
    && |key| > 4 && LowerCase(key)
    && key[|key| - 1] != 'f' && !(key[|key| - 4] == 'u' && key[|key| - 3] == 'n')
    && ('h' !in key || 'f' !in key || 'a' !in key)
  }

  lemma CelsiusNameIsClean(key: string)
    requires CelsiusName(key)
    ensures ToLower(key) == key && !IsFahrenheitKey(key) && !EndsWith(ToLower(key), "unit")
  {
    assert ToLower(key) == key;
    var last4 := key[|key| - 4..];
    assert last4[0] == key[|key| - 4] && last4[1] == key[|key| - 3];
    var last2, last1 := key[|key| - 2..], key[|key| - 1..];
    assert last2[1] == last1[0] == key[|key| - 1];
    forall i | 0 <= i <= |key| ensures !PartAt(key, "fahrenheit", i) {
      if i + 10 <= |key| {
        var part := key[i..i + 10];
        assert part[0] == key[i] && part[1] == key[i + 1] && part[2] == key[i + 2];
      }
    }
  }

  predicate CleanKey(key: string) {
    CelsiusName(key) && key !in RAW_IP_KEY_NAMES
  }

  lemma KeyWithout(key: string, missing: char)
    requires |key| > 4 && LowerCase(key) && missing in {'f', 'a', 'h'} && missing !in key
    requires key[|key| - 1] != 'f' && !(key[|key| - 4] == 'u' && key[|key| - 3] == 'n') && key !in RAW_IP_KEY_NAMES
    ensures CleanKey(key)
  {
  }

  lemma DurationKeys()
    ensures CleanKey("development_time_percent") && CleanKey("development_time_seconds")
            && CleanKey("total_roast_seconds")
  {
    hide CleanKey;
    KeyWithout("development_time_percent", 'h');
    KeyWithout("development_time_seconds", 'h');
    KeyWithout("total_roast_seconds", 'h');
  }

  lemma EventKeys()
    ensures CleanKey("beans_added_at_utc") && CleanKey("first_crack_at_utc") && CleanKey("beans_dropped_at_utc")
  {
    hide CleanKey;
    KeyWithout("beans_added_at_utc", 'h');
    KeyWithout("first_crack_at_utc", 'h');
    KeyWithout("beans_dropped_at_utc", 'h');
  }

  lemma TopLevelKeys()
    ensures CleanKey("started_at_utc") && CleanKey("metrics") && CleanKey("first_crack_model")
  {
    hide CleanKey;
    KeyWithout("started_at_utc", 'h');
    KeyWithout("metrics", 'h');
    KeyWithout("first_crack_model", 'h');
  }

  lemma RateKeys()
    ensures CleanKey("bean_ror_c_per_min") && CleanKey("env_ror_c_per_min") && CleanKey("bean_temp_delta_60s_c")
  {
    hide CleanKey;
    KeyWithout("bean_ror_c_per_min", 'h');
    KeyWithout("env_ror_c_per_min", 'h');
    KeyWithout("bean_temp_delta_60s_c", 'h');
  }

  lemma MetricsKeys()
    ensures CleanKey("env_temp_delta_60s_c") && CleanKey("roast_elapsed_seconds") && CleanKey("confidence")
  {
    hide CleanKey;
    KeyWithout("env_temp_delta_60s_c", 'h');
    KeyWithout("roast_elapsed_seconds", 'h');
    KeyWithout("confidence", 'h');
  }

  lemma ModelKeys()
    ensures CleanKey("confidence_threshold") && CleanKey("source") && CleanKey("sample_elapsed_s")
  {
    hide CleanKey;
    KeyWithout("confidence_threshold", 'a');
    KeyWithout("source", 'h');
    KeyWithout("sample_elapsed_s", 'h');
  }

  lemma ReadingKeys()
    ensures CleanKey("bean_temp_c") && CleanKey("env_temp_c") && CleanKey("heat_percent") && CleanKey("fan_percent")
  {
    hide CleanKey;
    KeyWithout("bean_temp_c", 'h');
    KeyWithout("env_temp_c", 'h');
    KeyWithout("heat_percent", 'f');
    KeyWithout("fan_percent", 'h');
  }

  /** An object with clean keys and clean values is a clean variant. */
  lemma CleanObject(fields: seq<Field>, isIP: string -> bool)
    requires forall k :: 0 <= k < |fields| ==> CleanKey(fields[k].key) && CleanVariant(fields[k].value, isIP)
    ensures CleanVariant(JObj(fields), isIP)
  {
    hide CleanKey, IsFahrenheitKey, Flagged;
    forall k | 0 <= k < |fields|
      ensures !CELSIUS_RULES.flagsKey(fields[k].key, fields[k].value)
      ensures !IpRules(isIP).flagsKey(fields[k].key, fields[k].value)
    {
      CleanKeyFlags(fields[k].key, fields[k].value, isIP);
    }
    ObjectClean(fields, CELSIUS_RULES);
    ObjectClean(fields, IpRules(isIP));
  }

  lemma CleanKeyFlags(key: string, value: Json, isIP: string -> bool)
    requires CleanKey(key)
    ensures !CELSIUS_RULES.flagsKey(key, value) && !IpRules(isIP).flagsKey(key, value)
  {
    CelsiusNameIsClean(key);
  }

  lemma CleanLeaf(j: Json, isIP: string -> bool)
    requires IsLeaf(j) && (j.JStr? ==> !ContainsRawIp(j.s, isIP))
    ensures CleanVariant(j, isIP)
  {
    LeafClean(j, CELSIUS_RULES);
    LeafClean(j, IpRules(isIP));
  }

  ghost predicate IpFree(s: string, isIP: string -> bool) {
    !ContainsRawIp(s, isIP)
  }

  lemma MetricsClean(m: Metrics, isIP: string -> bool)
    ensures CleanVariant(MetricsJson(m), isIP)
  {
    hide CleanKey, CleanVariant, ContainsRawIp;
    RateKeys();
    MetricsKeys();
    var fields := MetricsJson(m).fields;
    forall k | 0 <= k < |fields| ensures CleanVariant(fields[k].value, isIP) {
      CleanLeaf(fields[k].value, isIP);
    }
    CleanObject(fields, isIP);
  }

  lemma ModelClean(c: ClosedSummary, isIP: string -> bool)
    ensures CleanVariant(ModelJson(c), isIP)
  {
    hide CleanKey, CleanVariant, ContainsRawIp;
    MetricsKeys();
    ModelKeys();
    var fields := ModelJson(c).fields;
    forall k | 0 <= k < |fields| ensures CleanVariant(fields[k].value, isIP) {
      CleanLeaf(fields[k].value, isIP);
    }
    CleanObject(fields, isIP);
  }

  lemma SummaryClean(c: ClosedSummary, isIP: string -> bool)
    requires IpFree(c.startedAtUtc, isIP) && IpFree(c.firstCrackAtUtc, isIP)
    requires IpFree(c.beansAddedAtUtc, isIP) && IpFree(c.beansDroppedAtUtc, isIP)
    ensures CleanVariant(SummaryJson(c), isIP)
  {
    hide CleanKey, CleanVariant, ContainsRawIp, MetricsJson, ModelJson;
    DurationKeys();
    EventKeys();
    TopLevelKeys();
    MetricsClean(c.metrics, isIP);
    ModelClean(c, isIP);
    var fields := SummaryJson(c).fields;
    forall k | 0 <= k < |fields| ensures CleanVariant(fields[k].value, isIP) {
      if k < 7 { CleanLeaf(fields[k].value, isIP); }
    }
    CleanObject(fields, isIP);
  }

  lemma RawClean(elapsed: real, bean: real, env: real, heat: int, fan: int, isIP: string -> bool)
    requires RespectsAddressShape(isIP)
    ensures CleanVariant(RawJson(elapsed, bean, env, heat, fan), isIP)
  {
    hide CleanKey, CleanVariant, ContainsRawIp, RespectsAddressShape;
    ModelKeys();
    ReadingKeys();
    PlainTextHasNoIp("synthetic", isIP);
    var fields := RawJson(elapsed, bean, env, heat, fan).fields;
    forall k | 0 <= k < |fields| ensures CleanVariant(fields[k].value, isIP) {
      CleanLeaf(fields[k].value, isIP);
    }
    CleanObject(fields, isIP);
  }
}
