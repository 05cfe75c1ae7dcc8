/** `strategy::from_str_cs`: the comma-separated list of enabled strategies. */
module Strategy {
  import opened Wrappers
  import opened Strings

  /** The strategy bitmask's flags; a mask is the set of flags it holds. */
  datatype StrategyType = ScalpMA | Invalid

  /** The item names the one strategy, "ScalpMA", in any ASCII case. */
  predicate Supported(item: string) {
    Lower(item) == "scalpma"
  }

  /** Supported is the source's case-insensitive comparison with "ScalpMA". */
  lemma SupportedIgnoresCase(item: string)
    ensures Supported(item) <==> EqIgnoreAsciiCase(item, "ScalpMA")
  {
    assert Lower("ScalpMA") == "scalpma";
  }

  /** The position of the first item that is not a supported strategy, or
      the length of the list when every item is supported. */
  function FirstUnsupportedAt(items: seq<string>): (n: nat)
    ensures n <= |items|
    ensures forall j :: 0 <= j < n ==> Supported(items[j])
    ensures n < |items| ==> !Supported(items[n])
  {
    if |items| == 0 || !Supported(items[0]) then 0
    else 1 + FirstUnsupportedAt(items[1..])
  }

  /** The first item that is not a supported strategy, if any. */
  function FirstUnsupported(items: seq<string>): (r: Option<string>)
    ensures r.None? <==> forall i :: 0 <= i < |items| ==> Supported(items[i])
    ensures r.Some? ==> exists i :: 0 <= i < |items| && items[i] == r.value
                          && !Supported(items[i])
                          && forall j :: 0 <= j < i ==> Supported(items[j])
  {
    var n := FirstUnsupportedAt(items);
    if n == |items| then None else Some(items[n])
  }

  /** The list is split on ','; every item must equal "ScalpMA" ignoring ASCII
      case, the first other item is rejected (a panic in the source). The mask
      is returned as it was created, empty, because the flag is or-ed into a
      temporary that is dropped. */
  function FromStrCs(list: string): (r: Result<set<StrategyType>, string>)
    ensures r.Ok? ==> forall i :: 0 <= i < |Split(list, ',')| ==> Supported(Split(list, ',')[i])
    ensures r.Err? ==> exists i :: 0 <= i < |Split(list, ',')| && !Supported(Split(list, ',')[i])
    ensures r.Ok? ==> r.value == {}
    ensures r.Err? ==> !Supported(r.error) && ',' !in r.error
  {
    var items := Split(list, ',');
    var first := FirstUnsupported(items);
    RejectedItemIsAPiece(items);
    if first.None? then Ok({}) else Err(first.value)
  }

  /** The rejected item is one of the pieces, so it has every property all pieces share. */
  lemma RejectedItemIsAPiece(items: seq<string>)
    ensures FirstUnsupported(items).Some? ==> FirstUnsupported(items).value in items
  {
    var r := FirstUnsupported(items);
    if r.Some? {
      var i :| 0 <= i < |items| && items[i] == r.value;
    }
  }

  /** A list built from items free of ',' is accepted exactly when every item
      names the supported strategy. */
  lemma FromJoinedItems(items: seq<string>)
    requires |items| >= 1
    requires forall i :: 0 <= i < |items| ==> ',' !in items[i]
    ensures FromStrCs(Join(items, ',')).Ok? <==> forall i :: 0 <= i < |items| ==> Supported(items[i])
  {
    SplitJoin(items, ',');
  }

  /** An empty list is rejected: it splits into one empty item. */
  lemma EmptyListRejected()
    ensures FromStrCs("").Err?
  {
    assert Split("", ',') == [""];
  }
}
