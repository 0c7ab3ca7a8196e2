/** The connect scan of the ports a list names. */
module TcpScan {
  import opened ConnectScanner
  import opened Options
  import PortLists
  import opened ScanHistory
  import opened ScanState
  import opened ScanWorld

  /** For every well-formed list that names no port twice, parser and scanner fit together: the guarantees
      of the scan are about exactly the listed ports. */
  method ScanList(items: seq<PortLists.Item>, tagged: bool, udp: Option<string>, limits: Limits, env: Env)
    returns (r: Report, ghost h: History, ghost rec: Record)
    requires items != [] && PortLists.AllWellFormed(items) && PortLists.TellsUdp(tagged, udp)
    requires PortLists.ListedOnce(PortLists.Expand(items)) && |PortLists.Expand(items)| <= PortLists.MAX_PORTS
    requires limits.Ok()
    ensures rec.env == env && OneAtATime(rec)
    ensures r.Aborted? ==> Harsh(rec) || Crowded(rec, limits) || limits.minCnx < SAFE_MIN_CNX
    ensures r.Finished? ==>
      && PortLists.InTable(PortLists.Expand(items))
      && Faithful(rec, limits, PortLists.Table(PortLists.Expand(items)), r, h)
      && Complete(rec, r, Crowded(rec, limits)) && Silence(rec, r, h)
      && Justified(h) && (!r.exhausted ==> h.tables != [] && NoReason(h, r.ports))
    ensures r.Finished? && Unhindered(rec, limits) ==> Exact(r)
    ensures r.Finished? ==> r.passes <= |PortLists.Expand(items)| + 2 || Harsh(rec) || Crowded(rec, limits)
  {
    hide Faithful, Complete, Silence, Justified, NoReason, Exact, Harsh, Crowded, Marked;
    hide PortLists.Table, PortLists.AllWellFormed, PortLists.Expand, PortLists.Marks;
    PortLists.ParsersAgree(items, tagged, udp);
    ListedTable(items);
    var ok, states, untested := PortLists.MarkPorts(PortLists.Text(items, tagged, udp));
    r, h, rec := BannerGrab(states, untested, limits, env);
  }

  /** The same for ports given as numbers. */
  method ScanNumbers(spans: seq<PortLists.Span>, tagged: bool, udp: Option<string>, limits: Limits, env: Env)
    returns (r: Report, ghost h: History, ghost rec: Record)
    requires spans != [] && PortLists.InRange(spans) && PortLists.TellsUdp(tagged, udp)
    requires PortLists.ListedOnce(PortLists.Listed(spans)) && |PortLists.Listed(spans)| <= PortLists.MAX_PORTS
    requires limits.Ok()
    ensures rec.env == env && OneAtATime(rec)
    ensures r.Aborted? ==> Harsh(rec) || Crowded(rec, limits) || limits.minCnx < SAFE_MIN_CNX
    ensures r.Finished? ==>
      && PortLists.InTable(PortLists.Listed(spans))
      && (forall p | 0 <= p < |r.ports| :: r.ports[p] != NotTested <==> p in PortLists.Listed(spans))
      && Faithful(rec, limits, PortLists.Table(PortLists.Listed(spans)), r, h)
      && Complete(rec, r, Crowded(rec, limits)) && Silence(rec, r, h)
      && Justified(h) && (!r.exhausted ==> h.tables != [] && NoReason(h, r.ports))
    ensures r.Finished? && Unhindered(rec, limits) ==> Exact(r)
  {
    hide Faithful, Complete, Silence, Justified, NoReason, Exact, Harsh, Crowded, OneAtATime, Unhindered;
    hide PortLists.Table, PortLists.Listed, PortLists.Expand, PortLists.Printed, PortLists.AllWellFormed;
    PortLists.PrintedExpands(spans);
    r, h, rec := ScanList(PortLists.Printed(spans), tagged, udp, limits, env);
    if r.Finished? { ListedTested(rec, limits, PortLists.Listed(spans), r, h); }
  }

  /** Exactly the listed ports were tested. */
  lemma ListedTested(rec: Record, l: Limits, ports: seq<int>, r: Report, h: History)
    requires r.Finished? && PortLists.InTable(ports) && Faithful(rec, l, PortLists.Table(ports), r, h)
    ensures forall p | 0 <= p < |r.ports| :: r.ports[p] != NotTested <==> p in ports
  {
    hide Crowded, Chronicle, PortLists.Table;
    forall p | 0 <= p < |r.ports| ensures r.ports[p] != NotTested <==> p in ports {
      PortLists.TableIs(ports, p);
    }
  }

  /** What the parser leaves is what the scanner starts from. */
  lemma ListedTable(items: seq<PortLists.Item>)
    requires PortLists.AllWellFormed(items) && PortLists.ListedOnce(PortLists.Expand(items))
    ensures PortLists.InTable(PortLists.Expand(items))
    ensures var table := PortLists.Table(PortLists.Expand(items));
            Marked(table) && Num(table, Unknown) == |PortLists.Expand(items)|
    ensures forall p | p in PortLists.Expand(items) ::
              0 < p < PORTS && PortLists.Table(PortLists.Expand(items))[p] == Unknown
  {
    hide PortLists.Table, PortLists.Expand, PortLists.AllWellFormed;
    var ports := PortLists.Expand(items);
    PortLists.ExpandSmall(items);
    PortLists.CountIsRight(ports);
    forall p | 0 <= p < PORTS
      ensures PortLists.Table(ports)[p] == if p in ports then Unknown else NotTested
    {
      PortLists.TableIs(ports, p);
    }
  }
}
