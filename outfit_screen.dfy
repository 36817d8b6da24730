/**
 * The outfits screen: two lists of outfit cards (favourites and custom), a
 * tab choosing which one is shown, one expanded card at a time, a rename
 * dialog, and a newly created outfit arriving through the route parameters.
 */
module OutfitScreen {
  import opened Common

  /** One picture of an outfit card. */
  datatype Picture = Picture(id: string, imageUrl: string)

  /** An outfit card: `{ id, name, date, items, outfitItems }`. */
  datatype Card = Card(id: string, name: string, date: string, items: int, outfitItems: seq<Picture>)

  const MockImage: string := "https://via.placeholder.com/150"

  const InitialFavorites: seq<Card> := [
    Card("1", "Rainy Tuesday", "Nov 12", 3,
      [Picture("f1", MockImage), Picture("f2", MockImage), Picture("f3", MockImage)]),
    Card("2", "Weekend Vibe", "Nov 14", 2, [Picture("f4", MockImage), Picture("f5", MockImage)])
  ]

  const InitialCustom: seq<Card> := [Card("101", "My Birthday Look", "Oct 20", 5, [])]

  const FavoritesTab: string := "favorites"
  const CustomTab: string := "custom"

  /**
   * The characters `String.prototype.trim` removes: the ECMAScript
   * WhiteSpace set (tab, vertical tab, form feed, space, no-break space,
   * byte order mark and the Unicode space separators) and the line terminators.
   */
  predicate IsJsSpace(c: char) {
    || c == '\U{9}' || c == '\U{B}' || c == '\U{C}' || c == ' ' || c == '\U{A0}' || c == '\U{FEFF}'
    || c == '\U{A}' || c == '\U{D}' || c == '\U{2028}' || c == '\U{2029}'
    || c == '\U{1680}' || ('\U{2000}' <= c <= '\U{200A}') || c == '\U{202F}' || c == '\U{205F}' || c == '\U{3000}'
  }

  function TrimStart(s: string): (r: string)
    ensures r == [] || !IsJsSpace(r[0])
    ensures forall i :: 0 <= i < |s| - |r| ==> IsJsSpace(s[i])
    ensures |r| <= |s| && r == s[|s| - |r|..]
  {
    if s != [] && IsJsSpace(s[0]) then TrimStart(s[1..]) else s
  }

  function TrimEnd(s: string): (r: string)
    ensures r == [] || !IsJsSpace(r[|r| - 1])
    ensures forall i :: |r| <= i < |s| ==> IsJsSpace(s[i])
    ensures |r| <= |s| && r == s[..|r|]
  {
    if s != [] && IsJsSpace(s[|s| - 1]) then TrimEnd(s[..|s| - 1]) else s
  }

  /**
   * `s.trim()`: the middle of `s` left once the white space at both ends is
   * cut off; what is left neither starts nor ends with white space.
   */
  function Trim(s: string): (r: string)
    ensures |r| <= |s|
    ensures exists k :: CutAt(s, r, k)
    ensures r == [] || (!IsJsSpace(r[0]) && !IsJsSpace(r[|r| - 1]))
  {
    var t := TrimStart(s);
    var r := TrimEnd(t);
    var k := |s| - |t|;
    assert r == s[k..k + |r|];
    assert forall i :: k + |r| <= i < |s| ==> s[i] == t[i - k];
    assert CutAt(s, r, k);
    r
  }

  /** `r` is `s` with the first `k` characters and a tail cut off, all of them white space. */
  ghost predicate CutAt(s: string, r: string, k: int) {
    && 0 <= k <= |s| - |r| && r == s[k..k + |r|]
    && (forall i :: 0 <= i < k ==> IsJsSpace(s[i]))
    && (forall i :: k + |r| <= i < |s| ==> IsJsSpace(s[i]))
  }

  /** `!newNameText.trim()` holds exactly for text made only of white space (the empty text included). */
  lemma TrimEmpty(s: string)
    ensures Trim(s) == "" <==> forall i :: 0 <= i < |s| ==> IsJsSpace(s[i])
  {
  }

  /** `updateList`: the cards whose id is the target get the new name, exactly as typed. */
  function UpdateList(list: seq<Card>, targetId: string, newName: string): (r: seq<Card>)
    ensures |r| == |list|
    ensures forall i :: 0 <= i < |list| && list[i].id != targetId ==> r[i] == list[i]
    ensures forall i :: 0 <= i < |list| && list[i].id == targetId ==> r[i] == list[i].(name := newName)
  {
    if list == [] then []
    else [if list[0].id == targetId then list[0].(name := newName) else list[0]]
         + UpdateList(list[1..], targetId, newName)
  }

  /** Renaming twice to the same name is renaming once. */
  lemma UpdateListIdempotent(list: seq<Card>, targetId: string, newName: string)
    ensures UpdateList(UpdateList(list, targetId, newName), targetId, newName) == UpdateList(list, targetId, newName)
  {
  }

  /** Renaming a card that is not in a list leaves that list as it was. */
  lemma UpdateListMiss(list: seq<Card>, targetId: string, newName: string)
    requires forall i :: 0 <= i < |list| ==> list[i].id != targetId
    ensures UpdateList(list, targetId, newName) == list
  {
  }

  /** `toggleExpand`: the expanded id after a tap on the card `id`. */
  function NextExpanded(prev: Option<string>, id: string): (r: Option<string>)
    ensures r == Some(id) <==> prev != Some(id)
    ensures r.None? <==> prev == Some(id)
  {
    if prev == Some(id) then None else Some(id)
  }

  /** Two taps on the same card restore the previous state when it was collapsed or was that card. */
  lemma ToggleTwice(prev: Option<string>, id: string)
    ensures prev.None? || prev == Some(id) ==> NextExpanded(NextExpanded(prev, id), id) == prev
    ensures prev.Some? && prev != Some(id) ==> NextExpanded(NextExpanded(prev, id), id).None?
  {
  }

  /** The state of the outfits screen. */
  class Screen {
    var activeTab: string
    var customOutfits: seq<Card>
    var favoriteOutfits: seq<Card>
    var expandedId: Option<string>
    var renameVisible: bool
    var itemToRename: Option<Card>
    var newNameText: string
    /** `route.params.newOutfit`, cleared once it has been taken. */
    var newOutfitParam: Option<Card>

    constructor (param: Option<Card>)
      ensures activeTab == FavoritesTab && customOutfits == InitialCustom && favoriteOutfits == InitialFavorites
      ensures expandedId.None? && !renameVisible && itemToRename.None? && newNameText == ""
      ensures newOutfitParam == param
    {
      activeTab := FavoritesTab;
      customOutfits := InitialCustom;
      favoriteOutfits := InitialFavorites;
      expandedId := None;
      renameVisible := false;
      itemToRename := None;
      newNameText := "";
      newOutfitParam := param;
    }

    /** `currentData`: the list the screen shows. */
    function CurrentData(): (r: seq<Card>)
      reads this
      ensures activeTab == FavoritesTab ==> r == favoriteOutfits
      ensures activeTab != FavoritesTab ==> r == customOutfits
    {
      if activeTab == FavoritesTab then favoriteOutfits else customOutfits
    }

    /**
     * The focus effect: a pending new outfit goes to the front of the custom
     * list, is expanded and shown, and the parameter is cleared so a second
     * focus adds nothing.
     */
    method OnFocus()
      modifies this
      ensures newOutfitParam.None?
      ensures old(newOutfitParam).None? ==> unchanged(this)
      ensures old(newOutfitParam).Some? ==>
        var o := old(newOutfitParam).value;
        && customOutfits == [o] + old(customOutfits)
        && activeTab == CustomTab
        && expandedId == Some(o.id)
        && CurrentData() == customOutfits
        && favoriteOutfits == old(favoriteOutfits)
        && renameVisible == old(renameVisible) && itemToRename == old(itemToRename)
        && newNameText == old(newNameText)
    {
      if newOutfitParam.Some? {
        var o := newOutfitParam.value;
        customOutfits := [o] + customOutfits;
        activeTab := CustomTab;
        expandedId := Some(o.id);
        newOutfitParam := None;
      }
    }

    /** `toggleExpand`. */
    method ToggleExpand(id: string)
      modifies this`expandedId
      ensures expandedId == NextExpanded(old(expandedId), id)
    {
      expandedId := NextExpanded(expandedId, id);
    }

    /** `openRenameModal`: the dialog opens on the card, pre-filled with its name. */
    method OpenRenameModal(item: Card)
      modifies this`itemToRename, this`newNameText, this`renameVisible
      ensures itemToRename == Some(item) && newNameText == item.name && renameVisible
    {
      itemToRename := Some(item);
      newNameText := item.name;
      renameVisible := true;
    }

    /**
     * `handleSaveRename`. With no target, or a name that is blank after
     * trimming, only the dialog closes. Otherwise both lists are renamed
     * (the card may be in either) and the target is cleared.
     */
    method SaveRename()
      modifies this`favoriteOutfits, this`customOutfits, this`renameVisible, this`itemToRename
      ensures !renameVisible
      ensures old(itemToRename).None? || Trim(newNameText) == "" ==>
        favoriteOutfits == old(favoriteOutfits) && customOutfits == old(customOutfits)
        && itemToRename == old(itemToRename)
      ensures old(itemToRename).Some? && Trim(newNameText) != "" ==>
        var target := old(itemToRename).value.id;
        && favoriteOutfits == UpdateList(old(favoriteOutfits), target, newNameText)
        && customOutfits == UpdateList(old(customOutfits), target, newNameText)
        && itemToRename.None?
    {
      if itemToRename.Some? && Trim(newNameText) != "" {
        var target := itemToRename.value.id;
        favoriteOutfits := UpdateList(favoriteOutfits, target, newNameText);
        customOutfits := UpdateList(customOutfits, target, newNameText);
        itemToRename := None;
      }
      renameVisible := false;
    }
  }
}
