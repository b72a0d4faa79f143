/** Shared by every component. */
module Common {
  /** A nullable column or a query that may find no row. */
  datatype Option<+T> = None | Some(value: T)

  lemma {:induction false} Pick<T>(s: set<T>) returns (x: T)
    requires s != {}
    ensures x in s
  {
    x :| x in s;
  }

  /** What `ORDER BY id LIMIT 1` relies on. */
  lemma {:induction false} HasLeast(ids: set<int>)
    requires ids != {}
    ensures exists w :: w in ids && forall x | x in ids :: w <= x
  {
    var w := Pick(ids);
    if ids != {w} {
      var rest := ids - {w};
      assert rest != {};
      HasLeast(rest);
      var v :| v in rest && forall x | x in rest :: v <= x;
      var least := if v < w then v else w;
      assert least in ids && forall x | x in ids :: x == w || x in rest;
    }
  }
}
