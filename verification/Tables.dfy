/** Maps given by their keys and a rule. A map comprehension would be shorter, but Dafny 4.11
    also fixes a comprehension's values outside its domain, and two equal maps may then
    disagree there; built key by key a map has no such values. */
module Tables {
  ghost function Table<K, V>(keys: set<K>, rule: K --> V): (m: map<K, V>)
    requires forall k | k in keys :: rule.requires(k)
    ensures m.Keys == keys && forall k | k in keys :: m[k] == rule(k)
    decreases keys
  {
    if keys == {} then map[]
    else
      var k :| k in keys;
      Table(keys - {k}, rule)[k := rule(k)]
  }
}
