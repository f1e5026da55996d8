/** The project catalogue shown in the relationship graph: the `Project`
    record and the constant list of shipped projects. */
module ProjectData {
  import opened Filtering

  datatype Option<T> = None | Some(value: T)

  /** A pinned coordinate (`fx` or `fy`). The field is optional and nullable,
      so it has three states: absent, explicitly null, or a number. */
  datatype Pin = Unset | Null | Fixed(at: real)

  /** A project as authored, plus the position fields the force layout
      writes into it (`x`, `y`) and the drag pin (`fx`, `fy`). */
  datatype Project = Project(
    id: string,
    title: string,
    description: string,
    tech: seq<string>,
    x: Option<real>,
    y: Option<real>,
    fx: Pin,
    fy: Pin)

  /** True when the node is held in place along both axes. */
  predicate IsPinned(p: Project)
  {
    p.fx.Fixed? && p.fy.Fixed?
  }

  predicate UniqueIds(ps: seq<Project>)
  {
    forall k, l :: 0 <= k < l < |ps| ==> ps[k].id != ps[l].id
  }

  // The technology lists of the shipped projects.
  const DevboardTech: seq<string> := ["PCB Design", "KiCad", "Embedded C", "Power Management"]
  const SensorNodeTech: seq<string> := ["LoRa", "Battery Optimization", "PCB Design", "Sensors"]
  const DashboardTech: seq<string> := ["React", "Node.js", "MQTT", "TypeScript"]
  const UpdaterTech: seq<string> := ["C++", "TLS", "Embedded C", "Partitioning"]

  /** The four shipped projects, in file order. None carries a position or
      a pin. */
  const Shipped: seq<Project> := [
    Project("esp32-devboard", "ESP32 Devboard",
      "Custom development board with USB-C, LiPo charging, and debug headers.",
      DevboardTech, None, None, Unset, Unset),
    Project("sensor-node", "Wireless Sensor Node",
      "Low-power LoRa node for environmental monitoring.",
      SensorNodeTech, None, None, Unset, Unset),
    Project("cloud-dashboard", "Cloud Monitoring Dashboard",
      "Real-time data visualization for sensor networks.",
      DashboardTech, None, None, Unset, Unset),
    Project("firmware-updater", "OTA Firmware Updater",
      "Secure over-the-air update system for ESP32 devices.",
      UpdaterTech, None, None, Unset, Unset)
  ]

  /** The shipped ids are pairwise distinct. */
  lemma ShippedIdsDistinct()
    ensures |Shipped| == 4
    ensures UniqueIds(Shipped)
  {
  }

  /** No shipped project lists a technology twice. */
  lemma ShippedTechNoDuplicates()
    ensures forall k :: 0 <= k < |Shipped| ==> |Shipped[k].tech| == 4 && NoDuplicates(Shipped[k].tech)
  {
  }

  /** No shipped project starts out pinned: both pins are absent. */
  lemma ShippedUnpinned()
    ensures forall k :: 0 <= k < |Shipped| ==> Shipped[k].fx == Unset && Shipped[k].fy == Unset
    ensures forall k :: 0 <= k < |Shipped| ==> !IsPinned(Shipped[k])
  {
  }
}
