/** Walking over integer keys in ascending order, as an ordered map does. */
module KeyOrder {

  ghost function Pick<T>(s: set<T>): (x: T)
    requires s != {}
    ensures x in s
  {
    var x :| x in s;
    x
  }

  lemma LeastExists(s: set<int>)
    requires s != {}
    ensures exists m :: m in s && forall x | x in s :: m <= x
    decreases |s|
  {
    var y := Pick(s);
    var rest := s - {y};
    if rest == {} {
      assert forall x | x in s :: x in rest || x == y;
      assert y in s && forall x | x in s :: y <= x;
    } else {
      LeastExists(rest);
      var m :| m in rest && forall x | x in rest :: m <= x;
      var least := if m <= y then m else y;
      assert forall x | x in s :: x in rest || x == y;
      assert least in s && forall x | x in s :: least <= x;
    }
  }

  lemma GreatestExists(s: set<int>)
    requires s != {}
    ensures exists m :: m in s && forall x | x in s :: x <= m
    decreases |s|
  {
    var y := Pick(s);
    var rest := s - {y};
    if rest == {} {
      assert forall x | x in s :: x in rest || x == y;
      assert y in s && forall x | x in s :: x <= y;
    } else {
      GreatestExists(rest);
      var m :| m in rest && forall x | x in rest :: x <= m;
      var greatest := if y <= m then m else y;
      assert forall x | x in s :: x in rest || x == y;
      assert greatest in s && forall x | x in s :: x <= greatest;
    }
  }

  /** The last key in ascending order. */
  function Greatest(s: set<int>): (m: int)
    requires s != {}
    ensures m in s
    ensures forall x | x in s :: x <= m
  {
    GreatestExists(s);
    var m :| m in s && forall x | x in s :: x <= m;
    m
  }

  /** The first key in ascending order. */
  function Least(s: set<int>): (m: int)
    requires s != {}
    ensures m in s
    ensures forall x | x in s :: m <= x
  {
    LeastExists(s);
    var m :| m in s && forall x | x in s :: m <= x;
    m
  }
}
