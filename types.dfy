/**
 * The records of the dashboard. TypeScript's string-literal unions are
 * erased at run time (values arrive from the database or from files), so
 * statuses, categories and roles are plain strings here; optional
 * properties are `Option`s.
 */
module Types {
  import opened Wrappers

  /** `assignedTo?: number | string` of an asset. */
  datatype Assignee = UserId(id: int) | Named(name: string)

  datatype Asset = Asset(
    id: int,
    assetTag: string,
    serialNumber: Option<string>,
    model: string,
    status: string,
    category: string,
    manufacturer: Option<string>,
    purchaseDate: Option<string>,
    purchaseCost: Option<int>,
    warrantyExpires: Option<string>,
    assignedTo: Option<Assignee>,
    location: Option<string>,
    notes: Option<string>,
    ipAddress: Option<string>,
    macAddress: Option<string>,
    createdAt: Option<string>,
    updatedAt: Option<string>,
    dateReleased: Option<string>,
    releasedBy: Option<string>,
    financeChecked: Option<bool>)

  datatype User = User(
    id: int,
    name: string,
    email: string,
    role: Option<string>,
    department: Option<string>,
    position: Option<string>,
    phone: Option<string>,
    location: Option<string>,
    isActive: Option<bool>,
    isAdmin: Option<bool>,
    lastLogin: Option<string>,
    createdAt: Option<string>,
    updatedAt: Option<string>)

  /** `Component.type` is `kind` here (`type` is a Dafny keyword). */
  datatype Component = Component(
    id: string,
    name: string,
    kind: string,
    category: string,
    model: string,
    manufacturer: string,
    serialNumber: string,
    capacitySpecs: Option<string>,
    purchaseDate: string,
    purchaseCost: int,
    status: string,
    assignedTo: Option<string>,
    assetId: Option<string>,
    releasedBy: Option<string>,
    dateReleased: Option<string>,
    returnedTo: Option<string>,
    dateReturned: Option<string>,
    notes: Option<string>)

  datatype Accessory = Accessory(
    id: int,
    name: string,
    category: string,
    manufacturer: Option<string>,
    model: Option<string>,
    purchaseDate: Option<string>,
    purchaseCost: Option<int>,
    quantity: int,
    quantityAvailable: int,
    location: Option<string>,
    createdAt: Option<string>,
    updatedAt: Option<string>,
    status: Option<string>,
    assignedTo: Option<string>,
    releasedBy: Option<string>,
    dateReleased: Option<string>,
    returnedTo: Option<string>,
    dateReturned: Option<string>,
    notes: Option<string>)

  datatype License = License(
    id: int,
    name: string,
    software: string,
    key: string,
    seats: int,
    seatsAvailable: int,
    purchaseDate: Option<string>,
    expirationDate: Option<string>,
    purchaseCost: Option<int>,
    notes: Option<string>,
    createdAt: Option<string>,
    updatedAt: Option<string>)

  datatype BitLockerKey = BitLockerKey(
    id: string,
    assetId: string,
    serialNumber: string,
    recoveryKey: string,
    createdAt: string,
    lastAccessed: Option<string>,
    notes: Option<string>)

  datatype ZabbixVM = ZabbixVM(
    id: string,
    name: string,
    hostId: string,
    ipAddress: string,
    status: string,
    cpuUsage: int,
    memoryUsage: int,
    diskUsage: int,
    uptime: string,
    lastCheck: string,
    os: Option<string>,
    notes: Option<string>)

  datatype VMInventory = VMInventory(
    id: string,
    startDate: string,
    endDate: string,
    validity: string,
    hypervisor: string,
    hostname: string,
    hostModel: string,
    hostIpAddress: string,
    hostOS: string,
    rack: string,
    vmId: string,
    vmName: string,
    vmStatus: string,
    vmIpAddress: string,
    internetAccess: bool,
    vmOS: string,
    vmOSVersion: string,
    deployedBy: string,
    user: string,
    department: string,
    jiraTicketNumber: string,
    remarks: Option<string>,
    createdAt: string,
    updatedAt: string)

  datatype ActivityLog = ActivityLog(
    id: string,
    action: string,
    itemType: string,
    itemId: string,
    timestamp: string,
    userId: string,
    details: string)

  /** `s || ""` for an optional string: undefined and "" both give "". */
  function OrEmpty(s: Option<string>): (t: string)
    ensures s.Some? ==> t == s.value
    ensures s.None? ==> t == ""
  {
    s.GetOr("")
  }

  /** `s || d` for an optional string: the default replaces undefined and "". */
  function OrDefault(s: Option<string>, d: string): (t: string)
    ensures s.Some? && s.value != "" ==> t == s.value
    ensures (s.None? || s.value == "") ==> t == d
  {
    if s.Some? && s.value != "" then s.value else d
  }

  /** `s || d` for a string that is always present. */
  function Or(s: string, d: string): (t: string)
    ensures s != "" ==> t == s
    ensures s == "" ==> t == d
  {
    if s != "" then s else d
  }
}
