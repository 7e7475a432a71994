/** Lists of rendered DOM elements. A list container (a gallery, a `<select>`,
    an `<ul>`) is the sequence of its child elements in document order; each
    child is a `Node` whose `id` stands for the element's identity, so that a
    delete button's closure can remove exactly the element it was created with. */
module NodeLists {

  datatype Node<T> = Node(id: nat, data: T)

  function Ids<T>(s: seq<Node<T>>): set<nat> {
    set k | 0 <= k < |s| :: s[k].id
  }

  /** No element occurs twice in one container. */
  predicate UniqueIds<T>(s: seq<Node<T>>) {
    forall i, j :: 0 <= i < j < |s| ==> s[i].id != s[j].id
  }

  /** Every element was created before the page's id counter reached `bound`. */
  predicate IdsBelow<T>(s: seq<Node<T>>, bound: nat) {
    forall i :: 0 <= i < |s| ==> s[i].id < bound
  }

  /** `element.remove()`: the container without the element `id`. */
  function Remove<T>(s: seq<Node<T>>, id: nat): (r: seq<Node<T>>)
    ensures forall i :: 0 <= i < |r| ==> r[i] in s && r[i].id != id
    ensures forall i :: 0 <= i < |s| && s[i].id != id ==> s[i] in r
    ensures |r| <= |s|
  {
    if s == [] then []
    else if s[0].id == id then Remove(s[1..], id)
    else [s[0]] + Remove(s[1..], id)
  }

  /** Removing an element that is not in the container changes nothing. */
  lemma {:induction false} RemoveAbsent<T>(s: seq<Node<T>>, id: nat)
    requires id !in Ids(s)
    ensures Remove(s, id) == s
  {
    if s != [] {
      assert s[0].id == s[0].id;
      assert Ids(s[1..]) <= Ids(s) by {
        forall x | x in Ids(s[1..]) ensures x in Ids(s) {
          var k :| 0 <= k < |s[1..]| && s[1..][k].id == x;
          assert s[k + 1].id == x;
        }
      }
      RemoveAbsent(s[1..], id);
      assert s == [s[0]] + s[1..];
    }
  }

  /** In a container without duplicates, removing the element at position `k`
      takes out exactly that one element and keeps the others in order. */
  lemma {:induction false} RemoveExactlyOne<T>(s: seq<Node<T>>, k: nat)
    requires UniqueIds(s) && k < |s|
    ensures Remove(s, s[k].id) == s[..k] + s[k + 1..]
    ensures |Remove(s, s[k].id)| == |s| - 1
  {
    if k == 0 {
      assert s[0].id !in Ids(s[1..]) by {
        forall j | 0 <= j < |s[1..]| ensures s[1..][j].id != s[0].id {
          assert s[1..][j] == s[j + 1];
        }
      }
      RemoveAbsent(s[1..], s[0].id);
    } else {
      assert UniqueIds(s[1..]) by {
        forall i, j | 0 <= i < j < |s[1..]| ensures s[1..][i].id != s[1..][j].id {
          assert s[1..][i] == s[i + 1] && s[1..][j] == s[j + 1];
        }
      }
      RemoveExactlyOne(s[1..], k - 1);
      assert s[1..][k - 1] == s[k];
      assert s[1..][..k - 1] + s[1..][k..] == s[1..k] + s[k + 1..];
      assert [s[0]] + s[1..k] == s[..k];
    }
  }

  /** Removing an element keeps the others distinct and their ids bounded. */
  lemma {:induction false} RemoveKeepsUnique<T>(s: seq<Node<T>>, id: nat, bound: nat)
    requires UniqueIds(s) && IdsBelow(s, bound)
    ensures UniqueIds(Remove(s, id)) && IdsBelow(Remove(s, id), bound)
  {
    if s != [] {
      assert UniqueIds(s[1..]) by {
        forall i, j | 0 <= i < j < |s[1..]| ensures s[1..][i].id != s[1..][j].id {
          assert s[1..][i] == s[i + 1] && s[1..][j] == s[j + 1];
        }
      }
      RemoveKeepsUnique(s[1..], id, bound);
      if s[0].id != id {
        var t := Remove(s[1..], id);
        forall i | 0 <= i < |t| ensures t[i].id != s[0].id {
          var q :| 0 <= q < |s[1..]| && s[1..][q] == t[i];
          assert s[1..][q] == s[q + 1];
        }
      }
    }
  }

  /** Appending a new element, numbered by the page's counter, keeps every
      element distinct. */
  lemma AppendFresh<T>(s: seq<Node<T>>, bound: nat, d: T)
    requires UniqueIds(s) && IdsBelow(s, bound)
    ensures UniqueIds(s + [Node(bound, d)]) && IdsBelow(s + [Node(bound, d)], bound + 1)
  {
  }
}
