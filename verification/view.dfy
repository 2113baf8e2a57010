/** The small pure pieces of the stablecoin page's view in
    src/containers/PeggedContainer/index.tsx: the heading's capitalisation,
    the grouping flag handed to the table and the padding it controls, and
    the chain colour map. */
module PeggedView {

  /** `toUpperCase` on one character, for the ASCII letters. */
  function UpperChar(c: char): (u: char)
    ensures 'a' <= c <= 'z' ==> 'A' <= u <= 'Z' && u as int == c as int - 32
    ensures !('a' <= c <= 'z') ==> u == c
  {
    if 'a' <= c <= 'z' then (c as int - 32) as char else c
  }

  /** `str.charAt(0).toUpperCase() + str.slice(1)`; `charAt(0)` of the
      empty string is the empty string. */
  function Capitalize(s: string): (r: string)
    ensures |r| == |s|
    ensures |s| > 0 ==> r[0] == UpperChar(s[0]) && r[1..] == s[1..]
    ensures r == s <==> (|s| == 0 || !('a' <= s[0] <= 'z'))
    ensures |r| > 0 ==> !('a' <= r[0] <= 'z')
  {
    if |s| == 0 then "" else [UpperChar(s[0])] + s[1..]
  }

  /** Capitalising twice is capitalising once. */
  lemma CapitalizeIdempotent(s: string)
    ensures Capitalize(Capitalize(s)) == Capitalize(s)
  {
  }

  /** The categories whose table rows are shown grouped. */
  const GroupedCategories: seq<string> := ["All", "Non-EVM"]

  /** `['All', 'Non-EVM'].includes(category)`. */
  function ShowByGroup(category: string): (grouped: bool)
    ensures grouped <==> category == "All" || category == "Non-EVM"
  {
    category in GroupedCategories
  }

  /** The left padding of the table's first column, in pixels. */
  function FirstColumnPadding(showByGroup: bool): (px: nat)
    ensures px == 40 || px == 20
    ensures px == 40 <==> showByGroup
  {
    if showByGroup then 40 else 20
  }

  /** The padding a category's table gets: 40 pixels exactly for "All" and
      "Non-EVM", 20 for every other category. */
  lemma CategoryPadding(category: string)
    ensures FirstColumnPadding(ShowByGroup(category)) == (if category in {"All", "Non-EVM"} then 40 else 20)
  {
  }

  /** No later entry repeats the key at position `i`. */
  predicate LastOccurrence(keys: seq<string>, i: int)
    requires 0 <= i < |keys|
  {
    forall j :: i < j < |keys| ==> keys[j] != keys[i]
  }

  /** `Object.fromEntries` over parallel sequences of keys and values: a key
      given more than once keeps its last value. */
  function FromEntries<V>(keys: seq<string>, vals: seq<V>): (m: map<string, V>)
    requires |keys| == |vals|
    ensures m.Keys == set k | k in keys
    ensures forall i :: 0 <= i < |keys| && LastOccurrence(keys, i) ==> m[keys[i]] == vals[i]
    ensures forall k :: k in m ==> m[k] in vals
  {
    if |keys| == 0 then map[]
    else
      var n := |keys| - 1;
      var m := FromEntries(keys[..n], vals[..n]);
      var m' := m[keys[n] := vals[n]];
      assert m'.Keys == set k | k in keys by {
        assert keys == keys[..n] + [keys[n]];
      }
      forall i | 0 <= i < n && LastOccurrence(keys, i) ensures m'[keys[i]] == vals[i] {
        LastOccurrencePrefix(keys, i);
        assert keys[i] != keys[n];
      }
      forall k | k in m' ensures m'[k] in vals {
        if k != keys[n] {
          assert m[k] in vals[..n];
        }
      }
      m'
  }

  lemma LastOccurrencePrefix(keys: seq<string>, i: int)
    requires 0 <= i < |keys| - 1 && LastOccurrence(keys, i)
    ensures LastOccurrence(keys[..|keys| - 1], i)
  {
  }

  lemma LastOccurrenceBeforeOthers(chains: seq<string>, i: int)
    requires 0 <= i < |chains| && chains[i] != "Others" && LastOccurrence(chains, i)
    ensures LastOccurrence(chains + ["Others"], i)
  {
    var keys := chains + ["Others"];
    forall j | i < j < |keys| ensures keys[j] != keys[i] {
      if j < |chains| {
        assert keys[j] == chains[j];
      }
    }
  }

  lemma KeysWithOthers(chains: seq<string>)
    ensures (set k | k in chains + ["Others"]) == (set c | c in chains) + {"Others"}
  {
  }

  /** The colour of every chain and of "Others": `draws` are the colours
      the random colour generator returns, in the order it is called (once
      per chain, then once for "Others"). A chain listed twice keeps the
      colour of its last occurrence, and a chain called "Others" ends up with
      the colour drawn for the "Others" slice. */
  function ChainColors(chains: seq<string>, draws: seq<string>): (colors: map<string, string>)
    requires |draws| == |chains| + 1
    ensures colors.Keys == (set c | c in chains) + {"Others"}
    ensures colors["Others"] == draws[|chains|]
    ensures forall i :: 0 <= i < |chains| && chains[i] != "Others" && LastOccurrence(chains, i) ==>
              colors[chains[i]] == draws[i]
    ensures forall c :: c in colors ==> colors[c] in draws
  {
    var keys := chains + ["Others"];
    KeysWithOthers(chains);
    forall i | 0 <= i < |chains| && chains[i] != "Others" && LastOccurrence(chains, i)
      ensures LastOccurrence(keys, i)
    {
      LastOccurrenceBeforeOthers(chains, i);
    }
    assert keys[|chains|] == "Others";
    FromEntries(keys, draws)
  }
}
