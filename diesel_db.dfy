/** `diesel_helpers::Db`: the connection settings and the Postgres URL built from them. */
module DieselDb {

  import opened Wrappers

  datatype Db = Db(username: string, password: string, ip: string, port: string, name: string)

  const Scheme: string := "postgres://"

  /** `Db::to_url`: the fields are inserted verbatim, without escaping, and the
      ip is written between square brackets. */
  function ToUrl(db: Db): (url: string)
    ensures |url| >= |Scheme| && url[..|Scheme|] == Scheme
    ensures |url| == |Scheme| + |db.username| + |db.password| + |db.ip| + |db.port| + |db.name| + 6
  {
    Scheme + db.username + ":" + db.password + "@[" + db.ip + "]:" + db.port + "/" + db.name
  }

  /** `str::split_once(c)` */
  function SplitOnce(s: string, c: char): (r: Option<(string, string)>)
    ensures r.Some? ==> c !in r.value.0 && s == r.value.0 + [c] + r.value.1
    ensures r.None? <==> c !in s
  {
    if s == [] then None
    else if s[0] == c then assert s == [] + [c] + s[1..]; Some(([], s[1..]))
    else
      match SplitOnce(s[1..], c)
      case None => None
      case Some((a, b)) => assert s == [s[0]] + a + [c] + b; Some(([s[0]] + a, b))
  }

  lemma {:induction false} SplitOnceFirst(a: string, b: string, c: char)
    requires c !in a
    ensures SplitOnce(a + [c] + b, c) == Some((a, b))
  {
    if a != [] {
      SplitOnceFirst(a[1..], b, c);
      assert (a + [c] + b)[1..] == a[1..] + [c] + b;
      assert [a[0]] + a[1..] == a;
    }
  }

  /** Reads the fields back from a URL of the shape `ToUrl` writes. */
  function ParseUrl(url: string): Option<Db>
  {
    if |url| < |Scheme| || url[..|Scheme|] != Scheme then None
    else
      match SplitOnce(url[|Scheme|..], ':')
      case None => None
      case Some((username, rest)) =>
        match SplitOnce(rest, '@')
        case None => None
        case Some((password, rest)) =>
          match ParseHost(rest)
          case None => None
          case Some((ip, port, name)) => Some(Db(username, password, ip, port, name))
  }

  /** Reads `[ip]:port/name`. */
  function ParseHost(s: string): Option<(string, string, string)>
  {
    if s == [] || s[0] != '[' then None
    else
      match SplitOnce(s[1..], ']')
      case None => None
      case Some((ip, rest)) =>
        if rest == [] || rest[0] != ':' then None
        else
          match SplitOnce(rest[1..], '/')
          case None => None
          case Some((port, name)) => Some((ip, port, name))
  }

  lemma ParseHostOf(ip: string, port: string, name: string)
    requires ']' !in ip && '/' !in port
    ensures ParseHost("[" + ip + "]:" + port + "/" + name) == Some((ip, port, name))
  {
    var s := "[" + ip + "]:" + port + "/" + name;
    var r := ":" + port + "/" + name;
    assert s[1..] == ip + [']'] + r;
    SplitOnceFirst(ip, r, ']');
    assert r[1..] == port + ['/'] + name;
    SplitOnceFirst(port, name, '/');
  }

  /** The URL determines the settings as long as no field contains the
      separator that ends it. */
  lemma ParseToUrl(db: Db)
    requires ':' !in db.username && '@' !in db.password && ']' !in db.ip && '/' !in db.port
    ensures ParseUrl(ToUrl(db)) == Some(db)
  {
    var url := ToUrl(db);
    var host := "[" + db.ip + "]:" + db.port + "/" + db.name;
    var r1 := db.password + ['@'] + host;
    assert url == Scheme + (db.username + [':'] + r1);
    assert url[|Scheme|..] == db.username + [':'] + r1;
    SplitOnceFirst(db.username, r1, ':');
    SplitOnceFirst(db.password, host, '@');
    ParseHostOf(db.ip, db.port, db.name);
  }

  /** Without escaping, different settings can give the same URL. */
  lemma ToUrlNotInjective()
    ensures ToUrl(Db("a:b", "c", "::1", "5432", "db")) == ToUrl(Db("a", "b:c", "::1", "5432", "db"))
  {
  }
}
