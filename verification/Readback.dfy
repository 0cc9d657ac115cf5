/** The two readers of configuration files: readCurrentOutbound
    (internal/web/readback.go) and the scan of summarise (internal/backup/backup.go). */
module Readback {
  import opened Wrappers
  import opened Json
  import opened Settings
  import Nodes
  import NodeCodec
  import Render

  datatype Snapshot = Snapshot(kind: string, tag: string, server: string, serverPort: int)

  const PROXY_TYPES: set<string> := {"hysteria2", "hysteria", "vless", "vmess", "trojan", "shadowsocks",
                                     "tuic", "anytls", "socks", "http"}

  // -------------------------------------------------------------------------
  // Decoding the outbounds of a document
  // -------------------------------------------------------------------------

  function DecodeSnapshot(j: Json): Option<Snapshot>
  {
    if j.JNull? then Some(Snapshot("", "", "", 0))
    else if !j.JObj? then None
    else
      var f := j.fields;
      var k, t, s, p := StrAt(f, Type), StrAt(f, Tag), StrAt(f, Server), IntAt(f, ServerPort);
      if k.None? || t.None? || s.None? || p.None? then None
      else Some(Snapshot(k.value, t.value, s.value, p.value))
  }

  function DecodeSnapshots(js: seq<Json>): Option<seq<Snapshot>>
  {
    if js == [] then Some([])
    else
      var head, tail := DecodeSnapshot(js[0]), DecodeSnapshots(js[1..]);
      if head.None? || tail.None? then None else Some([head.value] + tail.value)
  }

  /** json.Unmarshal into a struct with an "outbounds" list; None is its error. */
  function OutboundsOf(doc: Json): Option<seq<Snapshot>>
  {
    if doc.JNull? then Some([])
    else if !doc.JObj? then None
    else
      match At(doc.fields, Outbounds)
      case None => Some([])
      case Some(v) => if v.JArr? then DecodeSnapshots(v.items) else None
  }

  // -------------------------------------------------------------------------
  // The two scans
  // -------------------------------------------------------------------------

  predicate Tagged(o: Snapshot) { o.tag == "proxy" }

  predicate ProxyTyped(o: Snapshot) { o.kind in PROXY_TYPES }

  /** isProxyType, the backup package's own copy of the list. */
  predicate IsProxyType(t: string)
  {
    || t == "hysteria2" || t == "hysteria" || t == "vless" || t == "vmess" || t == "trojan"
    || t == "shadowsocks" || t == "tuic" || t == "anytls" || t == "socks" || t == "http"
  }

  /** The index of the first element with a property. */
  function First<T>(xs: seq<T>, p: T -> bool): (r: Option<nat>)
    ensures r.Some? ==> r.value < |xs| && p(xs[r.value])
    ensures r.Some? ==> forall i :: 0 <= i < r.value ==> !p(xs[i])
    ensures r.None? ==> forall i :: 0 <= i < |xs| ==> !p(xs[i])
  {
    if xs == [] then None
    else if p(xs[0]) then Some(0)
    else
      var r := First(xs[1..], p);
      if r.None? then None else Some(r.value + 1)
  }

  /** readCurrentOutbound: a tagged outbound wins over an earlier untagged one. */
  function CurrentIndex(obs: seq<Snapshot>): Option<nat>
  {
    var tagged := First(obs, Tagged);
    if tagged.Some? then tagged else First(obs, ProxyTyped)
  }

  /** summarise: whichever comes first. */
  function SummaryIndex(obs: seq<Snapshot>): Option<nat>
  {
    First(obs, o => Tagged(o) || IsProxyType(o.kind))
  }

  /** The readers find a node in the same lists. They pick the same one exactly when no
      outbound is tagged or the first candidate of either kind is itself tagged. */
  lemma ReadersAgree(obs: seq<Snapshot>)
    ensures CurrentIndex(obs).Some? <==> SummaryIndex(obs).Some?
    ensures CurrentIndex(obs) == SummaryIndex(obs) <==>
            ((forall i :: 0 <= i < |obs| ==> !Tagged(obs[i]))
             || (SummaryIndex(obs).Some? && Tagged(obs[SummaryIndex(obs).value])))
  {
    var c, s := CurrentIndex(obs), SummaryIndex(obs);
    var tagged, typed := First(obs, Tagged), First(obs, ProxyTyped);
    if tagged.Some? {
      assert Tagged(obs[tagged.value]);
      assert s.Some?;
    }
  }

  function Pick(obs: seq<Snapshot>, at: Option<nat>): Option<Snapshot>
    requires at.Some? ==> at.value < |obs|
  {
    if at.None? then None else Some(obs[at.value])
  }

  /** readCurrentOutbound on a document. */
  function ReadCurrent(doc: Json): Option<Snapshot>
  {
    match OutboundsOf(doc)
    case None => None
    case Some(obs) => Pick(obs, CurrentIndex(obs))
  }

  /** summarise on a document; None is its empty summary. */
  function Summarise(doc: Json): Option<Snapshot>
  {
    match OutboundsOf(doc)
    case None => None
    case Some(obs) => Pick(obs, SummaryIndex(obs))
  }

  // -------------------------------------------------------------------------
  // Rendered documents
  // -------------------------------------------------------------------------

  function SnapshotOf(o: Nodes.Outbound): Snapshot
  {
    Snapshot(o.kind, o.tag, o.server, o.serverPort)
  }

  lemma SnapshotReads(o: Nodes.Outbound)
    ensures DecodeSnapshot(NodeCodec.EncodeOutbound(o)) == Some(SnapshotOf(o))
  {
    hide NodeCodec.EncodeOutbound, StrAt, IntAt;
    NodeCodec.OutboundTextsReadBack(o, Type, o.kind);
    NodeCodec.OutboundTextsReadBack(o, Tag, o.tag);
    NodeCodec.OutboundTextsReadBack(o, Server, o.server);
    NodeCodec.OutboundPortReadsBack(o);
  }

  const DIRECT := Snapshot("direct", "direct", "", 0)

  lemma SnapshotsCons(j: Json, js: seq<Json>, o: Snapshot, os: seq<Snapshot>)
    requires DecodeSnapshot(j) == Some(o) && DecodeSnapshots(js) == Some(os)
    ensures DecodeSnapshots([j] + js) == Some([o] + os)
  {
    assert ([j] + js)[1..] == js;
  }

  lemma EntriesRead(node: Nodes.Outbound)
    ensures DecodeSnapshots([NodeCodec.EncodeOutbound(node), Render.EncodeEntry(Render.Direct)])
         == Some([SnapshotOf(node), DIRECT])
  {
    hide NodeCodec.EncodeOutbound;
    SnapshotReads(node);
    var direct := Render.EncodeEntry(Render.Direct);
    assert DecodeSnapshot(direct) == Some(DIRECT);
    SnapshotsCons(direct, [], DIRECT, []);
    assert [direct] + [] == [direct] && [DIRECT] + [] == [DIRECT];
    SnapshotsCons(NodeCodec.EncodeOutbound(node), [direct], SnapshotOf(node), [DIRECT]);
    assert [NodeCodec.EncodeOutbound(node)] + [direct] == [NodeCodec.EncodeOutbound(node), direct];
    assert [SnapshotOf(node)] + [DIRECT] == [SnapshotOf(node), DIRECT];
  }

  lemma RenderedSnapshots(node: Nodes.Outbound, s: Settings, lan: Option<string>)
    ensures OutboundsOf(Render.RenderJson(node, s, lan)) == Some([SnapshotOf(node), DIRECT])
  {
    hide Render.RenderJson, NodeCodec.EncodeOutbound, DecodeSnapshots, Render.EncodeEntry;
    Render.RenderedOutbounds(node, s, lan);
    EntriesRead(node);
  }

  /** A rendered document gives the whole node back: its first outbound decodes to the
      node itself, and both readers report that node's type, server and port. */
  lemma RenderReadsBack(node: Nodes.Outbound, s: Settings, lan: Option<string>)
    requires node.tag == "proxy"
    ensures var doc := Render.RenderJson(node, s, lan);
      && doc.JObj? && Outbounds in doc.fields && doc.fields[Outbounds].JArr?
      && |doc.fields[Outbounds].items| == 2
      && NodeCodec.DecodeOutbound(doc.fields[Outbounds].items[0]) == Some(node)
      && ReadCurrent(doc) == Some(SnapshotOf(node))
      && Summarise(doc) == Some(SnapshotOf(node))
  {
    hide Render.RenderJson, NodeCodec.EncodeOutbound, NodeCodec.DecodeOutbound, OutboundsOf;
    Render.RenderedOutbounds(node, s, lan);
    NodeCodec.OutboundReadsBack(node);
    RenderedSnapshots(node, s, lan);
    var obs := [SnapshotOf(node), DIRECT];
    assert Tagged(obs[0]);
    ReadersAgree(obs);
  }

  // -------------------------------------------------------------------------
  // Documents edited by hand
  // -------------------------------------------------------------------------

  /** A list of outbounds is read when every entry is, entry by entry. */
  lemma {:induction false} EveryEntryIsRead(js: seq<Json>)
    ensures DecodeSnapshots(js).Some? <==> forall i :: 0 <= i < |js| ==> DecodeSnapshot(js[i]).Some?
    ensures DecodeSnapshots(js).Some? ==>
              |DecodeSnapshots(js).value| == |js|
              && forall i :: 0 <= i < |js| ==> DecodeSnapshot(js[i]) == Some(DecodeSnapshots(js).value[i])
  {
    hide DecodeSnapshot;
    if js == [] {
    } else {
      EveryEntryIsRead(js[1..]);
      assert forall i :: 1 <= i < |js| ==> js[i] == js[1..][i - 1];
      if DecodeSnapshot(js[0]).Some? && DecodeSnapshots(js[1..]).Some? {
        var tail := DecodeSnapshots(js[1..]).value;
        assert DecodeSnapshots(js).value == [DecodeSnapshot(js[0]).value] + tail;
      }
    }
  }

  /** An entry is read when its four fields have the right types, missing ones counting as
      empty; a null entry is empty. */
  lemma EntryIsRead(j: Json)
    ensures j.JNull? ==> DecodeSnapshot(j) == Some(Snapshot("", "", "", 0))
    ensures j.JObj? ==>
              (DecodeSnapshot(j).Some? <==>
                 && StrAt(j.fields, Type).Some? && StrAt(j.fields, Tag).Some? && StrAt(j.fields, Server).Some?
                 && IntAt(j.fields, ServerPort).Some?)
    ensures j.JObj? && DecodeSnapshot(j).Some? ==>
              var s := DecodeSnapshot(j).value;
              && StrAt(j.fields, Type) == Some(s.kind) && StrAt(j.fields, Tag) == Some(s.tag)
              && StrAt(j.fields, Server) == Some(s.server) && IntAt(j.fields, ServerPort) == Some(s.serverPort)
    ensures !j.JNull? && !j.JObj? ==> DecodeSnapshot(j).None?
  {
    hide StrAt, IntAt;
  }

  /** What readCurrentOutbound returns: the first outbound tagged "proxy", or the first of a
      proxy type if none is tagged. */
  lemma CurrentIsFirst(obs: seq<Snapshot>)
    ensures var r := CurrentIndex(obs);
      && (r.None? <==> forall i :: 0 <= i < |obs| ==> obs[i].tag != "proxy" && !IsProxyType(obs[i].kind))
      && (r.Some? ==>
            && r.value < |obs|
            && ((exists i :: 0 <= i < |obs| && obs[i].tag == "proxy") ==>
                  obs[r.value].tag == "proxy" && forall i :: 0 <= i < r.value ==> obs[i].tag != "proxy")
            && ((forall i :: 0 <= i < |obs| ==> obs[i].tag != "proxy") ==>
                  IsProxyType(obs[r.value].kind) && forall i :: 0 <= i < r.value ==> !IsProxyType(obs[i].kind)))
  {
    hide IsProxyType;
    forall i | 0 <= i < |obs|
      ensures ProxyTyped(obs[i]) <==> IsProxyType(obs[i].kind)
    {
      SameTypes(obs[i].kind);
    }
    var tagged, typed := First(obs, Tagged), First(obs, ProxyTyped);
    assert forall i :: 0 <= i < |obs| ==> (Tagged(obs[i]) <==> obs[i].tag == "proxy");
  }

  /** The two packages have the same list of types. */
  lemma SameTypes(t: string)
    ensures t in PROXY_TYPES <==> IsProxyType(t)
  {
  }
}
