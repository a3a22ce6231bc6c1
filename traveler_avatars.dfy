/**
 * The row of traveler avatars: which travelers are shown (the last few),
 * the character on each avatar and its background colour.
 */
module TravelerAvatars {
  import opened Wrappers
  import opened JsStrings

  const Colors: seq<Text> := ["#FF6B81", "#4ECDC4", "#FFE66D", "#95E1D3"]

  /** How many travelers are shown when `maxDisplay` is missing or 0. */
  const DefaultDisplay: int := 4

  datatype Avatar = Avatar(traveler: Text, glyph: Text, color: Text)

  /** `maxDisplay ? maxDisplay : 4`. */
  function DisplayLimit(maxDisplay: Option<int>): int
  {
    if maxDisplay.None? || maxDisplay.value == 0 then DefaultDisplay else maxDisplay.value
  }

  /** `travelers.slice(-limit)`. */
  function Displayed(travelers: seq<Text>, maxDisplay: Option<int>): seq<Text>
  {
    Slice(travelers, -DisplayLimit(maxDisplay), |travelers|)
  }

  /** The shown travelers are always a suffix of the list. With a positive
    * limit k, or none, they are the last min(n, k) travelers; a negative
    * limit -m instead drops the first m travelers. */
  lemma DisplayedFacts(travelers: seq<Text>, maxDisplay: Option<int>)
    ensures var d := Displayed(travelers, maxDisplay);
      && |d| <= |travelers| && d == travelers[|travelers| - |d|..]
      && (DisplayLimit(maxDisplay) > 0 ==>
            |d| == if DisplayLimit(maxDisplay) < |travelers| then DisplayLimit(maxDisplay) else |travelers|)
      && (DisplayLimit(maxDisplay) < 0 ==>
            |d| == if -DisplayLimit(maxDisplay) < |travelers| then |travelers| + DisplayLimit(maxDisplay) else 0)
  {
    var k := DisplayLimit(maxDisplay);
    if k > 0 {
      SliceSuffix(travelers, k);
    }
  }

  /** `traveler.slice(-1) || '?'`: the last character, or "?" for an empty name. */
  function Label(traveler: Text): (r: Text)
  {
    if traveler == [] then "?" else [traveler[|traveler| - 1]]
  }

  /** The label is one character: the name's last, or "?" for an empty
    * name, so "?" also labels a name that ends in "?". */
  lemma LabelFacts(traveler: Text)
    ensures |Label(traveler)| == 1
    ensures traveler != [] ==> Label(traveler) == Slice(traveler, -1, |traveler|)
    ensures Label(traveler) == "?" <==> traveler == [] || traveler[|traveler| - 1] == '?'
  {
    if traveler != [] {
      SliceSuffix(traveler, 1);
    }
  }

  /** The component: nothing for an empty list, otherwise one avatar per
    * shown traveler, coloured by its position among those shown. */
  function Avatars(travelers: seq<Text>, maxDisplay: Option<int>): Option<seq<Avatar>>
  {
    if travelers == [] then None
    else
      var d := Displayed(travelers, maxDisplay);
      Some(seq(|d|, i requires 0 <= i < |d| => Avatar(d[i], Label(d[i]), Colors[i % |Colors|])))
  }

  /** Nothing is rendered exactly for an empty list; otherwise the avatars
    * follow the shown travelers in order and the colours cycle through the
    * four, so neighbours never share a colour. */
  lemma AvatarsFacts(travelers: seq<Text>, maxDisplay: Option<int>)
    ensures Avatars(travelers, maxDisplay).None? <==> travelers == []
    ensures Avatars(travelers, maxDisplay).Some? ==>
      var a := Avatars(travelers, maxDisplay).value;
      var d := Displayed(travelers, maxDisplay);
      && |a| == |d|
      && (forall i :: 0 <= i < |a| ==> a[i].traveler == d[i] && a[i].glyph == Label(d[i]) && a[i].color == Colors[i % 4])
      && (forall i :: 0 <= i < |a| - 1 ==> a[i].color != a[i + 1].color)
  {
    if travelers != [] {
      var a := Avatars(travelers, maxDisplay).value;
      forall i | 0 <= i < |a| - 1
        ensures a[i].color != a[i + 1].color
      {
        assert (i + 1) % 4 == if i % 4 == 3 then 0 else i % 4 + 1;
      }
    }
  }
}
