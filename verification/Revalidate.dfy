// GET answers kept on disk by their ETag, and conditional requests for them
// (internal/forge/revalidate.go), against a client that keeps nothing.
module Revalidate {
  import opened Basics

  type Key = string

  /** The same URL gives other bytes for another Accept. */
  function KeyOf(url: string, accept: string): Key {
    url + "\n" + accept
  }

  /** What the host has for a key. A reader may ask for the link to the next page and for the media type. */
  datatype Content = Content(code: int, etag: string, data: Data)
  datatype Data = Data(link: string, ctype: string, body: string)

  /** The host at one moment; None is a request that fails. */
  type Host = Key -> Option<Content>

  datatype Response = Response(code: int, data: Data) | Error

  // --- the host, by sections 13.1.2 and 15.4.5 of RFC 9110

  datatype Reply = Lost | NotModified | Full(content: Content)

  function Ask(host: Host, key: Key, ifNoneMatch: string): Reply {
    match host(key)
    case None => Lost
    case Some(c) => if c.code == 200 && ifNoneMatch != "" && c.etag == ifNoneMatch then NotModified else Full(c)
  }

  function Direct(host: Host, key: Key): Response {
    match host(key)
    case None => Error
    case Some(c) => Response(c.code, c.data)
  }

  // --- the files

  const MAX := 134217728 // maxAnswer

  datatype File = File(etag: string, data: Data) | Spoiled

  type Dir = map<Key, File>

  /** An answer without a media type or a body reads as one of another format. */
  function Read(dir: Dir, key: Key): Option<File> {
    if key in dir && dir[key].File? && dir[key].data.ctype != "" && dir[key].data.body != "" then Some(dir[key]) else None
  }

  /** What one request meets: a body that can be read to its end, and a file that can be written. */
  datatype Luck = Luck(readable: bool, keeps: bool)

  function Cut(d: Data): Data {
    if |d.body| > MAX then d.(body := d.body[..MAX + 1]) else d
  }

  function Answered(dir: Dir, key: Key, frozen: bool, host: Host, luck: Luck): Response {
    var have := Read(dir, key);
    if have.Some? && frozen then Response(200, have.value.data.(link := ""))
    else match Ask(host, key, if have.Some? then have.value.etag else "")
      case Lost => Error
      case NotModified => if have.Some? then Response(200, have.value.data) else Error
      case Full(c) =>
        if c.code == 200 && (c.etag != "" || frozen)
        then (if luck.readable then Response(200, Cut(c.data)) else Error)
        else Response(c.code, c.data)
  }

  function Kept(dir: Dir, key: Key, frozen: bool, host: Host, luck: Luck): Dir {
    var have := Read(dir, key);
    if have.Some? && frozen then dir
    else match Ask(host, key, if have.Some? then have.value.etag else "")
      case Full(c) =>
        if c.code == 200 && (c.etag != "" || frozen) && luck.readable && luck.keeps && |c.data.body| <= MAX
        then dir[key := File(c.etag, c.data)] else dir
      case _ => dir
  }

  // --- what a reader sees

  datatype Seen = Seen(code: int, data: Data) | TooLong | Nothing

  /** No reader takes a body over MAX. */
  function SeenOf(r: Response): Seen {
    if r.Error? then Nothing else if |r.data.body| > MAX then TooLong else Seen(r.code, r.data)
  }

  /**
   * An ETag names one answer of a key (section 8.8.3 of RFC 9110), and a file at a
   * full commit always has the same bytes.
   */
  datatype Facts = Facts(named: (Key, string) -> Data, frozen: Key -> bool, forever: Key -> Data)

  ghost predicate Honest(f: Facts, host: Host) {
    forall k :: host(k).Some? ==> HonestAt(f, k, host(k).value)
  }

  ghost predicate HonestAt(f: Facts, k: Key, c: Content) {
    c.code == 200 ==>
      && (c.etag != "" ==> c.data == f.named(k, c.etag))
      && (f.frozen(k) ==> c.data.(link := "") == f.forever(k))
  }

  ghost predicate DirOk(f: Facts, dir: Dir) {
    forall k :: Read(dir, k).Some? ==>
      && (dir[k].etag != "" ==> dir[k].data == f.named(k, dir[k].etag))
      && (f.frozen(k) ==> dir[k].data.(link := "") == f.forever(k))
  }

  lemma DirStays(f: Facts, dir: Dir, key: Key, frozen: bool, host: Host, luck: Luck)
    requires DirOk(f, dir) && Honest(f, host)
    ensures DirOk(f, Kept(dir, key, frozen, host, luck))
  {
    var next := Kept(dir, key, frozen, host, luck);
    assert host(key).Some? ==> HonestAt(f, key, host(key).value);
    forall k | Read(next, k).Some?
      ensures next[k].etag != "" ==> next[k].data == f.named(k, next[k].etag)
      ensures f.frozen(k) ==> next[k].data.(link := "") == f.forever(k)
    {
      if next != dir && k == key { assert next[k] == File(host(key).value.etag, host(key).value.data); }
      else { assert Read(dir, k).Some?; }
    }
  }

  /**
   * r shows a reader what a plain GET at this moment does, or says that the body
   * could not be read. Only for a file at a full commit that is kept the host may be
   * gone; the bytes are the same.
   */
  ghost predicate IsFresh(f: Facts, dir: Dir, key: Key, frozen: bool, host: Host, luck: Luck, r: Response) {
    || SeenOf(r) == SeenOf(Direct(host, key))
    || (r == Error && !luck.readable)
    || (frozen && Read(dir, key).Some? && r == Response(200, f.forever(key)))
  }

  lemma Fresh(f: Facts, dir: Dir, key: Key, frozen: bool, host: Host, luck: Luck)
    requires DirOk(f, dir) && Honest(f, host) && (frozen ==> f.frozen(key))
    ensures IsFresh(f, dir, key, frozen, host, luck, Answered(dir, key, frozen, host, luck))
  {
    assert host(key).Some? ==> HonestAt(f, key, host(key).value);
    assert Read(dir, key).Some? ==> dir[key] == Read(dir, key).value;
  }

  /**
   * A full answer with an ETag, or at a full commit, that can be read and is not too
   * long, is kept. From then on the host is asked only whether it still holds, and at
   * a full commit not even that.
   */
  lemma KeptAnswers(dir: Dir, key: Key, frozen: bool, host: Host, luck: Luck, c: Content)
    requires (key in dir ==> dir[key].Spoiled?) && host(key) == Some(c) && c.code == 200 && (c.etag != "" || frozen)
    requires luck.readable && luck.keeps && |c.data.body| <= 134217728 && c.data.ctype != "" && c.data.body != ""
    ensures var next := Kept(dir, key, frozen, host, luck);
      && next == dir[key := File(c.etag, c.data)]
      && (forall later: Host, l, other :: c.etag != "" && later(key) == Some(Content(200, c.etag, other)) ==>
            Answered(next, key, false, later, l) == Response(200, c.data) && Kept(next, key, false, later, l) == next)
      && (forall later: Host, l :: Answered(next, key, true, later, l) == Response(200, Data("", c.data.ctype, c.data.body)))
  {
  }

  /** A kept file whose ETag the host has given up is replaced by what the host has now. */
  lemma KeptAgain(dir: Dir, key: Key, host: Host, luck: Luck, c: Content)
    requires host(key) == Some(c) && c.code == 200 && c.etag != ""
    requires key in dir && dir[key].File? && dir[key].etag != c.etag
    requires luck.readable && luck.keeps && |c.data.body| <= 134217728
    ensures Kept(dir, key, false, host, luck) == dir[key := File(c.etag, c.data)]
    ensures Answered(dir, key, false, host, luck) == Response(200, c.data)
  {
  }

  // --- the client

  class Revalidator {
    var dir: Dir

    /** With files that are the host's, a reader sees what a plain GET gives, or the kept bytes of a full commit. */
    method Get(key: Key, frozen: bool, host: Host, luck: Luck) returns (r: Response)
      modifies this
      ensures r == Answered(old(dir), key, frozen, host, luck)
      ensures dir == Kept(old(dir), key, frozen, host, luck)
      ensures forall f :: DirOk(f, old(dir)) && Honest(f, host) && (frozen ==> f.frozen(key)) ==>
        DirOk(f, dir) && IsFresh(f, old(dir), key, frozen, host, luck, r)
    {
      ghost var before := dir;
      forall f | DirOk(f, before) && Honest(f, host) && (frozen ==> f.frozen(key))
        ensures DirOk(f, Kept(before, key, frozen, host, luck))
        ensures IsFresh(f, before, key, frozen, host, luck, Answered(before, key, frozen, host, luck))
      {
        DirStays(f, before, key, frozen, host, luck);
        Fresh(f, before, key, frozen, host, luck);
      }
      var have := Read(dir, key);
      if have.Some? && frozen {
        return Response(200, Data("", have.value.data.ctype, have.value.data.body));
      }
      var ifNoneMatch := "";
      if have.Some? && have.value.etag != "" { ifNoneMatch := have.value.etag; }
      var reply := Ask(host, key, ifNoneMatch);
      if reply.Lost? { return Error; }
      if reply.NotModified? {
        return Response(200, have.value.data);
      }
      var c := reply.content;
      if c.code == 200 && (c.etag != "" || frozen) {
        if !luck.readable { return Error; }
        var read := Cut(c.data);
        if |read.body| <= MAX && luck.keeps { dir := dir[key := File(c.etag, read)]; }
        return Response(200, read);
      }
      return Response(c.code, c.data);
    }
  }

  // --- runs

  datatype Event =
    | Requested(key: Key, frozen: bool, host: Host, luck: Luck)
    | Deleted(key: Key)
    | Spoils(key: Key)

  function After(dir: Dir, e: Event): Dir {
    match e
    case Requested(key, frozen, host, luck) => Kept(dir, key, frozen, host, luck)
    case Deleted(key) => dir - {key}
    case Spoils(key) => dir[key := Spoiled]
  }

  function AfterAll(dir: Dir, events: seq<Event>): Dir
    decreases |events|
  {
    if events == [] then dir else AfterAll(After(dir, events[0]), events[1..])
  }

  ghost predicate Fair(f: Facts, e: Event) {
    e.Requested? ==> Honest(f, e.host) && (e.frozen ==> f.frozen(e.key))
  }

  lemma {:induction false} DirOkAfter(f: Facts, dir: Dir, events: seq<Event>)
    requires DirOk(f, dir) && forall e :: e in events ==> Fair(f, e)
    ensures DirOk(f, AfterAll(dir, events))
    decreases |events|
  {
    if events != [] {
      var e := events[0];
      assert Fair(f, e);
      match e {
        case Requested(key, frozen, host, luck) => DirStays(f, dir, key, frozen, host, luck);
        case Deleted(key) =>
          assert forall k :: Read(dir - {key}, k).Some? ==> Read(dir, k).Some? && (dir - {key})[k] == dir[k];
        case Spoils(key) =>
          assert forall k :: Read(dir[key := Spoiled], k).Some? ==> Read(dir, k).Some? && dir[key := Spoiled][k] == dir[k];
      }
      DirOkAfter(f, After(dir, e), events[1..]);
    }
  }

  /** From no files, over any requests, host changes, and lost or unreadable files, each GET is fresh. */
  lemma NeverStale(f: Facts, events: seq<Event>, key: Key, frozen: bool, host: Host, luck: Luck)
    requires forall e :: e in events ==> Fair(f, e)
    requires Honest(f, host) && (frozen ==> f.frozen(key))
    ensures var dir := AfterAll(map[], events);
      IsFresh(f, dir, key, frozen, host, luck, Answered(dir, key, frozen, host, luck))
  {
    DirOkAfter(f, map[], events);
    Fresh(f, AfterAll(map[], events), key, frozen, host, luck);
  }

  /** No two requests share a file: a URL has no line break. */
  lemma KeysDiffer(url: string, accept: string, url2: string, accept2: string)
    requires '\n' !in url && '\n' !in url2 && KeyOf(url, accept) == KeyOf(url2, accept2)
    ensures url == url2 && accept == accept2
  {
    var k := KeyOf(url, accept);
    assert k[|url|] == '\n' && k[|url2|] == '\n';
    assert forall i :: 0 <= i < |url| ==> k[i] == url[i] && url[i] in url;
    assert forall i :: 0 <= i < |url2| ==> k[i] == url2[i] && url2[i] in url2;
    assert url == k[..|url|] == url2 && accept == k[|url| + 1..] == accept2;
  }
}
