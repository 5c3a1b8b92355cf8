/** Creating the application database and its schema: the admin connection
    URL, the existence check on the server, and the start-up sequence. */
module Provisioning {

  import opened Results
  import opened Text
  import Schema

  /** The database the application creates if the server lacks it. */
  const APP_DATABASE: string := "minimem"
  /** The suffix that points a URL at the server's default database. */
  const ADMIN_SUFFIX: string := "/postgres"

  /** `url.rsplit("/", 1)[0]`: everything before the last "/", or the whole
      string when it has none. */
  function BeforeLastSlash(url: string): (r: string)
    ensures r <= url
    ensures '/' in url ==> |r| < |url| && url[|r|] == '/' && '/' !in url[|r| + 1..]
    ensures '/' !in url ==> r == url
  {
    match LastIndexOf(url, '/')
    case None => url
    case Some(i) => url[..i]
  }

  /** The URL of the server's default `postgres` database, derived from the
      application's database URL. */
  function AdminUrl(databaseUrl: string): (r: string)
    ensures |r| >= |ADMIN_SUFFIX| && r[|r| - |ADMIN_SUFFIX|..] == ADMIN_SUFFIX
    ensures r[..|r| - |ADMIN_SUFFIX|] <= databaseUrl
    ensures '/' in databaseUrl ==>
              var n := |r| - |ADMIN_SUFFIX|;
              n < |databaseUrl| && databaseUrl[n] == '/' && '/' !in databaseUrl[n + 1..]
    ensures '/' !in databaseUrl ==> r == databaseUrl + ADMIN_SUFFIX
  {
    var head := BeforeLastSlash(databaseUrl);
    assert (head + ADMIN_SUFFIX)[..|head|] == head;
    head + ADMIN_SUFFIX
  }

  /** The last "/" of `head + "/postgres"` is the one just after `head`. */
  lemma {:induction false} LastSlashOfAdminUrl(head: string)
    ensures LastIndexOf(head + ADMIN_SUFFIX, '/') == Some(|head|)
  {
    var rest := "postgres";
    assert '/' !in rest;
    assert head + ADMIN_SUFFIX == head + ['/'] + rest;
    LastIndexAfter(head, '/', rest);
  }

  lemma {:induction false} LastIndexAfter(a: string, c: char, b: string)
    requires c !in b
    ensures LastIndexOf(a + [c] + b, c) == Some(|a|)
  {
    var s := a + [c] + b;
    assert s[|a|] == c && s[|a|] in s;
    assert s[|a| + 1..] == b;
    var k := LastIndexOf(s, c).value;
    assert forall j :: k < j < |s| ==> s[j] == s[k + 1..][j - k - 1] != c;
    assert forall j :: |a| < j < |s| ==> s[j] == b[j - |a| - 1] != c;
  }

  /** Deriving the admin URL from an admin URL gives it back unchanged. */
  lemma AdminUrlIdempotent(databaseUrl: string)
    ensures AdminUrl(AdminUrl(databaseUrl)) == AdminUrl(databaseUrl)
  {
    var head := BeforeLastSlash(databaseUrl);
    LastSlashOfAdminUrl(head);
    assert (head + ADMIN_SUFFIX)[..|head|] == head;
  }

  /** The PostgreSQL server: the names of the databases it holds. */
  class Cluster {
    var databases: set<string>

    constructor (existing: set<string>)
      ensures databases == existing
    {
      databases := existing;
    }

    /** Connects through the admin URL, looks the application database up in
        the catalogue, and creates it only when it is missing. */
    method EnsureDatabaseExists(databaseUrl: string) returns (adminUrl: string, created: bool)
      modifies this
      ensures adminUrl == AdminUrl(databaseUrl)
      ensures created == (APP_DATABASE !in old(databases))
      ensures databases == old(databases) + {APP_DATABASE}
    {
      adminUrl := AdminUrl(databaseUrl);
      var found := APP_DATABASE in databases;
      created := !found;
      if !found {
        databases := databases + {APP_DATABASE};
      }
    }
  }

  /** The start-up script: nothing happens without a (non-empty) database
      URL; otherwise the database is ensured and the schema created in it.
      `db` is the database the URL names; `created` says whether this run
      created it. No row and no sequence is touched. */
  method InitDatabase(databaseUrl: Option<string>, cluster: Cluster, db: Schema.Database)
    returns (ran: bool, created: bool)
    requires db.Valid()
    modifies cluster, db`objects
    ensures db.Valid()
    ensures ran <==> databaseUrl.Some? && databaseUrl.value != ""
    ensures created <==> ran && APP_DATABASE !in old(cluster.databases)
    ensures cluster.databases == if ran then old(cluster.databases) + {APP_DATABASE} else old(cluster.databases)
    ensures db.objects == if ran then Schema.ALL_OBJECTS else old(db.objects)
    ensures db.meetings == old(db.meetings) && db.decisions == old(db.decisions)
    ensures db.participants == old(db.participants)
    ensures db.meetingSerial == old(db.meetingSerial) && db.decisionSerial == old(db.decisionSerial)
    ensures db.participantSerial == old(db.participantSerial)
  {
    if databaseUrl.None? || databaseUrl.value == "" {
      return false, false;
    }
    var _, c := cluster.EnsureDatabaseExists(databaseUrl.value);
    db.InitSchema();
    ran, created := true, c;
  }

  /** Running the start-up twice: the second run creates no database and
      leaves everything as the first run left it. */
  method InitDatabaseTwice(databaseUrl: Option<string>, cluster: Cluster, db: Schema.Database)
    returns (firstCreated: bool, secondCreated: bool)
    requires db.Valid()
    modifies cluster, db`objects
    ensures db.Valid()
    ensures secondCreated == false
    ensures firstCreated <==> databaseUrl.Some? && databaseUrl.value != "" && APP_DATABASE !in old(cluster.databases)
    ensures cluster.databases == if databaseUrl.Some? && databaseUrl.value != ""
                                 then old(cluster.databases) + {APP_DATABASE} else old(cluster.databases)
    ensures db.objects == if databaseUrl.Some? && databaseUrl.value != "" then Schema.ALL_OBJECTS else old(db.objects)
    ensures db.meetings == old(db.meetings) && db.decisions == old(db.decisions)
    ensures db.participants == old(db.participants)
    ensures db.meetingSerial == old(db.meetingSerial) && db.decisionSerial == old(db.decisionSerial)
    ensures db.participantSerial == old(db.participantSerial)
  {
    var _, c1 := InitDatabase(databaseUrl, cluster, db);
    var _, c2 := InitDatabase(databaseUrl, cluster, db);
    firstCreated, secondCreated := c1, c2;
  }
}
