/** `bi_dir_from!`: the two-way mapping between a Rust enum and the text
    stored in a Postgres enum column, generated from a list of
    `variant <=> name` arms. */
module DieselEnums {

  import opened Wrappers

  /** The arms given to the macro, in order. */
  type Arms<V> = seq<(V, string)>

  /** `diesel::serialize::IsNull` */
  datatype IsNull = Yes | No

  /** The generated `match *self` is exhaustive only if every variant has an arm. */
  ghost predicate Listed<V>(arms: Arms<V>, v: V) {
    exists i :: 0 <= i < |arms| && arms[i].0 == v
  }

  ghost predicate DistinctNames<V>(arms: Arms<V>) {
    forall i, j :: 0 <= i < j < |arms| ==> arms[i].1 != arms[j].1
  }

  ghost predicate DistinctVariants<V>(arms: Arms<V>) {
    forall i, j :: 0 <= i < j < |arms| ==> arms[i].0 != arms[j].0
  }

  /** The name written for `v`: that of the first arm for `v` (a later arm for
      the same variant is unreachable). */
  function NameOf<V(==)>(arms: Arms<V>, v: V): (name: string)
    requires Listed(arms, v)
    ensures exists i :: 0 <= i < |arms| && arms[i].0 == v && arms[i].1 == name
                        && forall j :: 0 <= j < i ==> arms[j].0 != v
  {
    if arms[0].0 == v then arms[0].1
    else
      assert Listed(arms[1..], v) by {
        var i :| 0 <= i < |arms| && arms[i].0 == v;
        assert arms[1..][i - 1] == arms[i];
      }
      var name := NameOf(arms[1..], v);
      assert exists i :: 0 <= i < |arms| && arms[i].0 == v && arms[i].1 == name
                         && forall j :: 0 <= j < i ==> arms[j].0 != v by {
        var i :| 0 <= i < |arms| - 1 && arms[1..][i].0 == v && arms[1..][i].1 == name
                 && forall j :: 0 <= j < i ==> arms[1..][j].0 != v;
        forall j | 0 <= j < i + 1 ensures arms[j].0 != v {
          if j > 0 { assert arms[j] == arms[1..][j - 1]; }
        }
      }
      name
  }

  /** `to_sql`: appends the variant's name to the output buffer and says the
      value is not NULL. */
  function ToSql<V(==)>(arms: Arms<V>, v: V, out: string): (r: (string, IsNull))
    requires Listed(arms, v)
    ensures r.1 == IsNull.No
    ensures exists i :: 0 <= i < |arms| && arms[i].0 == v && r.0 == out + arms[i].1
                        && forall j :: 0 <= j < i ==> arms[j].0 != v
  {
    (out + NameOf(arms, v), IsNull.No)
  }

  /** `from_sql` on the decoded text: the variant of the first arm with that
      name, or the error "Unrecognized enum variant". */
  function FromSql<V>(arms: Arms<V>, text: string): (r: Result<V, string>)
    ensures r.Ok? <==> exists i :: 0 <= i < |arms| && arms[i].1 == text
    ensures r.Ok? ==> exists i :: 0 <= i < |arms| && arms[i].1 == text && arms[i].0 == r.value
                                  && forall j :: 0 <= j < i ==> arms[j].1 != text
    ensures r.Err? ==> r.error == "Unrecognized enum variant"
  {
    if arms == [] then Err("Unrecognized enum variant")
    else if arms[0].1 == text then Ok(arms[0].0)
    else
      var r := FromSql(arms[1..], text);
      assert (exists i :: 0 <= i < |arms| && arms[i].1 == text) ==>
             (exists i :: 0 <= i < |arms[1..]| && arms[1..][i].1 == text) by {
        if exists i :: 0 <= i < |arms| && arms[i].1 == text {
          var i :| 0 <= i < |arms| && arms[i].1 == text;
          assert arms[1..][i - 1] == arms[i];
        }
      }
      if r.Ok? then
        assert exists i :: 0 <= i < |arms| && arms[i].1 == text && arms[i].0 == r.value
                           && forall j :: 0 <= j < i ==> arms[j].1 != text by {
          var i :| 0 <= i < |arms[1..]| && arms[1..][i].1 == text && arms[1..][i].0 == r.value
                   && forall j :: 0 <= j < i ==> arms[1..][j].1 != text;
          forall j | 0 <= j < i + 1 ensures arms[j].1 != text {
            if j > 0 { assert arms[j] == arms[1..][j - 1]; }
          }
        }
        r
      else r
  }

  /** Reading back what was written gives the same variant, when names are distinct. */
  lemma FromSqlToSql<V>(arms: Arms<V>, v: V)
    requires Listed(arms, v) && DistinctNames(arms)
    ensures FromSql(arms, ToSql(arms, v, "").0) == Ok(v)
  {
    var name := ToSql(arms, v, "").0;
    var i :| 0 <= i < |arms| && arms[i].0 == v && name == "" + arms[i].1;
    assert name == arms[i].1;
    var r := FromSql(arms, name);
    var k :| 0 <= k < |arms| && arms[k].1 == name && arms[k].0 == r.value;
    assert k == i;
  }

  /** Writing a variant that was read gives back the same text, when variants are distinct. */
  lemma ToSqlFromSql<V>(arms: Arms<V>, text: string)
    requires FromSql(arms, text).Ok? && DistinctVariants(arms)
    ensures Listed(arms, FromSql(arms, text).value)
    ensures ToSql(arms, FromSql(arms, text).value, "").0 == text
  {
    var v := FromSql(arms, text).value;
    var k :| 0 <= k < |arms| && arms[k].1 == text && arms[k].0 == v;
    var name := ToSql(arms, v, "").0;
    var i :| 0 <= i < |arms| && arms[i].0 == v && name == "" + arms[i].1;
    assert i == k;
  }
}
