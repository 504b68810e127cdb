/** The part of Redis the scraper uses: keys holding sets of strings, written with
    SADD and read with SMEMBERS. */
module Redis {

  /** The database: each key maps to its set of members. */
  type Sets = map<string, set<string>>

  /** SMEMBERS: a key that was never written reads as the empty set. */
  function Members(db: Sets, key: string): set<string>
  {
    if key in db then db[key] else {}
  }

  /** The members named in an SADD call; repeated arguments count once. */
  function Elements(args: seq<string>): (s: set<string>)
    ensures forall m :: m in s <==> m in args
  {
    set m | m in args
  }

  /** The database after SADD `key` with `members`: that key gains the members and
      every other key keeps its set. */
  function Added(db: Sets, key: string, members: set<string>): (r: Sets)
    ensures Members(r, key) == Members(db, key) + members
    ensures forall k :: k != key ==> Members(r, k) == Members(db, k)
  {
    db[key := Members(db, key) + members]
  }

  /** No set of the store loses a member between `db1` and `db2`. */
  ghost predicate Grows(db1: Sets, db2: Sets)
  {
    forall key :: Members(db1, key) <= Members(db2, key)
  }

  /** The sets of `db1` and `db2` agree outside the keys in `touched`. */
  ghost predicate SameOutside(db1: Sets, db2: Sets, touched: set<string>)
  {
    forall key :: key !in touched ==> Members(db2, key) == Members(db1, key)
  }

  /** Two SADD calls on the same key add the union of their members. */
  lemma AddedTwice(db: Sets, key: string, m1: set<string>, m2: set<string>)
    ensures Added(Added(db, key, m1), key, m2) == Added(db, key, m1 + m2)
  {
    var once := Added(db, key, m1);
    assert Members(once, key) + m2 == Members(db, key) + (m1 + m2);
    assert once[key := Members(once, key) + m2] == db[key := Members(db, key) + (m1 + m2)];
  }

  /** A Redis client connected to one database. */
  class Store {
    var db: Sets

    /** SMEMBERS, as a set: the order Redis lists members in is not modelled here. */
    function SMembers(key: string): set<string>
      reads this
    {
      Members(db, key)
    }

    /** SADD `key` `args...`. The Go code ignores the error SADD may return; a
        failing server is not modelled. */
    method SAdd(key: string, args: seq<string>)
      modifies this
      ensures db == Added(old(db), key, Elements(args))
    {
      db := Added(db, key, Elements(args));
    }
  }
}
