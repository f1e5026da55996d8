/** What the relationship graph derives from the shipped project list. */
module ShippedGraph {
  import opened ProjectData
  import opened ProjectGraph

  /** The devboard and the sensor node share only PCB design. */
  lemma DevboardSensorNode()
    ensures SharedTech(DevboardTech, SensorNodeTech) == ["PCB Design"]
  {
    SharedTechOfFour(DevboardTech, SensorNodeTech);
  }

  /** The devboard and the firmware updater share only Embedded C. */
  lemma DevboardFirmwareUpdater()
    ensures SharedTech(DevboardTech, UpdaterTech) == ["Embedded C"]
  {
    SharedTechOfFour(DevboardTech, UpdaterTech);
  }

  /** The sensor node shares nothing with the firmware updater. */
  lemma SensorNodeFirmwareUpdater()
    ensures SharedTech(SensorNodeTech, UpdaterTech) == []
  {
    SharedTechOfFour(SensorNodeTech, UpdaterTech);
  }

  /** The cloud dashboard shares nothing with any other project. */
  lemma DevboardDashboard()
    ensures SharedTech(DevboardTech, DashboardTech) == []
  {
    SharedTechOfFour(DevboardTech, DashboardTech);
  }

  lemma SensorNodeDashboard()
    ensures SharedTech(SensorNodeTech, DashboardTech) == []
  {
    SharedTechOfFour(SensorNodeTech, DashboardTech);
  }

  lemma DashboardFirmwareUpdater()
    ensures SharedTech(DashboardTech, UpdaterTech) == []
  {
    SharedTechOfFour(DashboardTech, UpdaterTech);
  }

  lemma ShippedTechLists()
    ensures |Shipped| == 4
    ensures Shipped[0].tech == DevboardTech && Shipped[1].tech == SensorNodeTech
    ensures Shipped[2].tech == DashboardTech && Shipped[3].tech == UpdaterTech
  {
  }

  /** The devboard's row: links to the sensor node and the updater. */
  lemma DevboardRow()
    ensures KeptInRows(LinkedPair(Shipped), 4, 1) == [Pair(0, 1), Pair(0, 3)]
  {
    var keep := LinkedPair(Shipped);
    ShippedTechLists();
    DevboardSensorNode();
    DevboardDashboard();
    DevboardFirmwareUpdater();
    assert KeptBefore(keep, 4, 0, 1) == [];
    assert KeptBefore(keep, 4, 0, 2) == [Pair(0, 1)];
    assert KeptBefore(keep, 4, 0, 3) == [Pair(0, 1)];
    assert KeptBefore(keep, 4, 0, 4) == [Pair(0, 1), Pair(0, 3)];
  }

  /** The sensor node's row adds no link. */
  lemma SensorNodeRow()
    ensures KeptInRows(LinkedPair(Shipped), 4, 2) == KeptInRows(LinkedPair(Shipped), 4, 1)
  {
    var keep := LinkedPair(Shipped);
    ShippedTechLists();
    SensorNodeDashboard();
    SensorNodeFirmwareUpdater();
    assert KeptBefore(keep, 4, 1, 3) == KeptInRows(keep, 4, 1);
  }

  /** The dashboard's row adds no link, and the last row is empty. */
  lemma LaterRows()
    ensures KeptInRows(LinkedPair(Shipped), 4, 4) == KeptInRows(LinkedPair(Shipped), 4, 2)
  {
    var keep := LinkedPair(Shipped);
    ShippedTechLists();
    DashboardFirmwareUpdater();
    assert KeptInRows(keep, 4, 3) == KeptInRows(keep, 4, 2);
  }

  /** The index pairs `getLinks` emits on the shipped list. */
  lemma ShippedPairs()
    ensures EmittedPairs(Shipped) == [Pair(0, 1), Pair(0, 3)]
  {
    DevboardRow();
    SensorNodeRow();
    LaterRows();
    KeptInRowsIsFilter(LinkedPair(Shipped), 4, 4);
  }

  /** `getLinks` on the shipped list yields exactly two links of strength 1:
      devboard to sensor node over PCB design, and devboard to firmware
      updater over Embedded C. */
  lemma ShippedLinks()
    ensures Links(Shipped) == [
      LinkData(Shipped[0], Shipped[1], 1, ["PCB Design"]),
      LinkData(Shipped[0], Shipped[3], 1, ["Embedded C"])]
  {
    ShippedPairs();
    DevboardSensorNode();
    DevboardFirmwareUpdater();
  }

  /** The cloud dashboard is an end of no link. */
  lemma CloudDashboardIsolated()
    ensures forall l :: l in Links(Shipped) ==>
      l.source.id != "cloud-dashboard" && l.target.id != "cloud-dashboard"
  {
    ShippedLinks();
  }

  /** On the shipped list each link's strength is the number of distinct
      technologies its projects share. */
  lemma ShippedLinkStrengths()
    ensures forall k :: 0 <= k < |Links(Shipped)| ==>
      Links(Shipped)[k].strength
        == |set t | t in Links(Shipped)[k].source.tech && t in Links(Shipped)[k].target.tech|
  {
    forall k | 0 <= k < |Links(Shipped)|
      ensures Links(Shipped)[k].strength
        == |set t | t in Links(Shipped)[k].source.tech && t in Links(Shipped)[k].target.tech|
    {
      ShippedTechNoDuplicates();
      LinkStrengthCountsShared(Shipped, k);
    }
  }

  /** Both shipped links pull their nodes toward a distance of 120. */
  lemma ShippedLinkDistances()
    ensures forall l :: l in Links(Shipped) ==> LinkDistance(l.strength) == 120
  {
    ShippedLinks();
  }
}
