/**
 * The parsed JSON document the plugin loader works on (VTOY_JSON).
 *
 * A node's pstChild/pstNext chain of children is a sequence here, in
 * document order.  The parser itself is not part of this model.
 */
module VtoyJson {
  import opened Wrappers

  /** enDataType of a node. */
  datatype JsonType = Object | Array | String | Number | Bool | Null

  /**
   * One node: its type, its member name (pcName; None when it is an array
   * element or the root), its string value (unData.pcStrVal, meaningful for
   * String nodes) and its children.
   */
  datatype Node = Node(kind: JsonType, name: Option<string>, str: Option<string>, children: seq<Node>)

  /** Sibling i is a String member called key. */
  predicate IsStringMember(siblings: seq<Node>, i: int, key: string)
  {
    0 <= i < |siblings| && siblings[i].kind == String && siblings[i].name == Some(key)
  }

  /**
   * vtoy_json_get_string_ex: the value of the first String member called
   * key in a sibling chain, or None when there is none.
   */
  function GetStringEx(siblings: seq<Node>, key: string): (r: Option<string>)
    ensures (forall i :: 0 <= i < |siblings| ==> !IsStringMember(siblings, i, key)) ==> r == None
    ensures r.Some? ==> exists i :: IsStringMember(siblings, i, key) && siblings[i].str == r &&
                                    forall j :: 0 <= j < i ==> !IsStringMember(siblings, j, key)
  {
    if siblings == [] then None
    else if siblings[0].kind == String && siblings[0].name == Some(key) then
      assert IsStringMember(siblings, 0, key);
      siblings[0].str
    else
      var r := GetStringEx(siblings[1..], key);
      assert forall i :: IsStringMember(siblings, i, key) ==> i > 0 && IsStringMember(siblings[1..], i - 1, key);
      assert r.Some? ==> exists i :: (IsStringMember(siblings[1..], i, key) && siblings[1..][i].str == r &&
                                      IsStringMember(siblings, i + 1, key) &&
                                      forall j :: 0 <= j < i + 1 ==> !IsStringMember(siblings, j, key));
      r
  }

  /**
   * A String member called key that no earlier sibling shadows is the one
   * vtoy_json_get_string_ex returns.
   */
  lemma {:induction false} GetStringExFindsFirst(siblings: seq<Node>, key: string, i: int)
    requires IsStringMember(siblings, i, key)
    requires forall j :: 0 <= j < i ==> !IsStringMember(siblings, j, key)
    ensures GetStringEx(siblings, key) == siblings[i].str
  {
    if i > 0 {
      assert !IsStringMember(siblings, 0, key);
      assert IsStringMember(siblings[1..], i - 1, key);
      forall j | 0 <= j < i - 1
        ensures !IsStringMember(siblings[1..], j, key)
      {
        assert !IsStringMember(siblings, j + 1, key);
      }
      GetStringExFindsFirst(siblings[1..], key, i - 1);
    }
  }
}
