/** The fixture records the pages start from and the setup procedure seeds. */
module MockData {
  import opened Wrappers
  import opened Types
  import opened Postgres

  const MockAssets: seq<Asset> := [
    Asset(1, "LT-001", Some("DELLXPS15-001"), "Dell XPS 15", "deployed", "Laptop", Some("Dell"),
      Some("2023-01-15"), Some(1800), Some("2026-01-14"), Some(UserId(101)), Some("Office A-101"),
      Some("Primary laptop for John Doe"), Some("192.168.1.101"), Some("00:1A:2B:3C:4D:E1"),
      Some("2023-01-15T10:00:00Z"), Some("2024-05-01T14:30:00Z"), Some("2023-01-20"), Some("IT Admin"), Some(true)),
    Asset(2, "DK-005", Some("HPELITEDESK-005"), "HP EliteDesk 800 G9", "available", "Desktop", Some("HP"),
      Some("2023-03-20"), Some(1200), Some("2026-03-19"), None, Some("IT Storage Room"),
      Some("Standard office desktop"), Some(""), Some("00:1A:2B:3C:4D:E2"),
      Some("2023-03-20T09:00:00Z"), Some("2024-04-15T11:00:00Z"), None, None, Some(true)),
    Asset(3, "SV-002", Some("DELLPESRV-002"), "Dell PowerEdge R740", "maintenance", "Server", Some("Dell"),
      Some("2022-11-01"), Some(5500), Some("2025-10-31"), None, Some("Data Center Rack 3"),
      Some("Scheduled firmware update"), Some("10.0.0.5"), Some("00:1A:2B:3C:4D:E3"),
      Some("2022-11-01T08:00:00Z"), Some("2024-05-04T16:00:00Z"), None, None, Some(true)),
    Asset(4, "MN-010", Some("DELLU2723QE-010"), "Dell UltraSharp U2723QE", "deployed", "Monitor", Some("Dell"),
      Some("2023-06-10"), Some(600), Some("2026-06-09"), Some(UserId(102)), Some("Office B-205"),
      Some("4K Monitor for Jane Smith"), None, None,
      Some("2023-06-10T11:00:00Z"), Some("2023-06-15T09:15:00Z"), Some("2023-06-15"), Some("IT Support"), Some(true)),
    Asset(5, "PR-003", Some("HPLJPRO400-003"), "HP LaserJet Pro M404dn", "decommissioned", "Printer", Some("HP"),
      Some("2020-05-01"), Some(400), Some("2023-04-30"), None, Some("Recycling Area"),
      Some("Replaced with newer model"), Some("192.168.1.200"), Some("00:1A:2B:3C:4D:E4"),
      Some("2020-05-01T13:00:00Z"), Some("2024-03-10T10:00:00Z"), None, None, Some(false))
  ]

  const MockUsers: seq<User> := [
    User(101, "John Doe", "john.doe@example.com", Some("admin"), Some("IT"), Some("System Administrator"),
      Some("123-456-7890"), Some("Office A-101"), Some(true), Some(true),
      Some("2024-05-04T15:30:00Z"), Some("2022-08-01T09:00:00Z"), Some("2024-05-04T15:30:00Z")),
    User(102, "Jane Smith", "jane.smith@example.com", Some("manager"), Some("Marketing"), Some("Marketing Manager"),
      Some("123-456-7891"), Some("Office B-205"), Some(true), Some(false),
      Some("2024-05-03T11:00:00Z"), Some("2023-02-10T10:00:00Z"), Some("2024-05-03T11:00:00Z")),
    User(103, "Robert Johnson", "robert.johnson@example.com", Some("user"), Some("Sales"), Some("Sales Representative"),
      Some("123-456-7892"), Some("Remote"), Some(true), Some(false),
      Some("2024-05-04T09:45:00Z"), Some("2023-05-15T14:00:00Z"), Some("2024-05-04T09:45:00Z")),
    User(104, "Emily White", "emily.white@example.com", Some("user"), Some("Human Resources"), Some("HR Specialist"),
      Some("123-456-7893"), Some("Office C-301"), Some(false), Some(false),
      Some("2024-02-28T17:00:00Z"), Some("2023-07-20T11:30:00Z"), Some("2024-03-01T09:00:00Z"))
  ]

  /**
   * A mock component as the seed reads it: the columns it passes through
   * (its fractional cost kept as decimal text) and its `assetId` string.
   */
  datatype ComponentSeed = ComponentSeed(
    name: string, category: string, serialNumber: string, manufacturer: string, model: string,
    purchaseDate: string, purchaseCost: string, status: string, assetId: Option<string>)

  const MockComponents: seq<ComponentSeed> := [
    ComponentSeed("Intel Core i7-11700K", "cpu", "INTEL-I7-001", "Intel", "Core i7-11700K", "2022-05-10", "349.99", "deployed", Some("2")),
    ComponentSeed("Kingston 16GB DDR4", "ram", "KINGSTON-RAM-001", "Kingston", "HyperX 16GB DDR4-3200", "2022-05-10", "89.99", "deployed", Some("2")),
    ComponentSeed("Samsung 1TB SSD", "storage", "SAMSUNG-SSD-001", "Samsung", "970 EVO Plus", "2022-05-10", "149.99", "available", None)
  ]

  const MockAccessories: seq<Accessory> := [
    Accessory(301, "Logitech MX Master 3 Mouse", "Mouse", Some("Logitech"), Some("MX Master 3"), Some("2023-04-10"), Some(99), 50, 25,
      Some("IT Storage - Shelf A"), Some("2023-04-10T10:00:00Z"), Some("2024-05-01T11:00:00Z"), None, None, None, None, None, None, None),
    Accessory(302, "Dell Premier Wireless Keyboard", "Keyboard", Some("Dell"), Some("KM717"), Some("2023-04-10"), Some(75), 50, 30,
      Some("IT Storage - Shelf A"), Some("2023-04-10T10:05:00Z"), Some("2024-04-20T14:00:00Z"), None, None, None, None, None, None, None),
    Accessory(303, "Anker USB-C Hub", "Docking Station/Hub", Some("Anker"), Some("PowerExpand+ 7-in-1"), Some("2023-08-01"), Some(45), 30, 15,
      Some("IT Storage - Shelf B"), Some("2023-08-01T09:30:00Z"), Some("2024-03-15T16:20:00Z"), None, None, None, None, None, None, None),
    Accessory(304, "Jabra Evolve 65 Headset", "Headset", Some("Jabra"), Some("Evolve 65 MS Stereo"), Some("2023-09-15"), Some(150), 40, 40,
      Some("IT Storage - Shelf C"), Some("2023-09-15T11:00:00Z"), Some("2023-09-15T11:00:00Z"), None, None, None, None, None, None, None)
  ]

  const MockLicenses: seq<License> := [
    License(401, "Microsoft 365 E3", "Microsoft 365", "VOL-M365-E3-001", 100, 15, Some("2024-01-01"), Some("2024-12-31"), Some(36000),
      Some("Annual subscription for all employees"), Some("2024-01-01T09:00:00Z"), Some("2024-05-01T10:00:00Z")),
    License(402, "Adobe Creative Cloud All Apps", "Adobe Creative Cloud", "VOL-ADOBECC-001", 20, 5, Some("2024-03-01"), Some("2025-02-28"), Some(12000),
      Some("For Marketing and Design teams"), Some("2024-03-01T10:00:00Z"), Some("2024-04-15T14:30:00Z")),
    License(403, "JetBrains All Products Pack", "JetBrains IDEs", "PERP-JB-ALL-005", 10, 2, Some("2023-11-15"), Some("2024-11-14"), Some(6490),
      Some("For Development team"), Some("2023-11-15T11:00:00Z"), Some("2024-04-25T09:00:00Z")),
    License(404, "Slack Standard Plan", "Slack", "SUB-SLACK-STD-001", 150, 20, Some("2024-02-01"), Some("2025-01-31"), Some(12150),
      Some("Company-wide communication tool"), Some("2024-02-01T14:00:00Z"), Some("2024-05-02T16:00:00Z"))
  ]

  const MockBitLockerKeys: seq<BitLockerKey> := [
    BitLockerKey("bitlocker-001", "1", "DELLXPS15-001", "123456-123456-123456-123456-123456-123456-123456-123456",
      "2023-01-16T10:00:00Z", Some("2023-03-10T14:30:00Z"), Some("Executive laptop recovery key")),
    BitLockerKey("bitlocker-002", "2", "HPED800-001", "234567-234567-234567-234567-234567-234567-234567-234567",
      "2022-11-12T12:00:00Z", None, Some("Standard desktop recovery key"))
  ]

  /** The Zabbix hosts as seed columns (their usage figures are fractional, kept as decimal text). */
  const MockZabbixVmColumns: seq<Cols> := [
    map["name" := DText("Web Server"), "ip_address" := DText("192.168.1.10"), "status" := DText("up"),
        "cpu_usage" := DNum("45.2"), "memory_usage" := DNum("62.8"), "disk_usage" := DNum("78.5"),
        "os" := DText("Ubuntu 22.04 LTS"), "last_check" := DText("2023-05-25T10:15:00Z")],
    map["name" := DText("Database Server"), "ip_address" := DText("192.168.1.11"), "status" := DText("up"),
        "cpu_usage" := DNum("68.7"), "memory_usage" := DNum("75.3"), "disk_usage" := DNum("82.1"),
        "os" := DText("CentOS 8"), "last_check" := DText("2023-05-25T10:15:00Z")],
    map["name" := DText("File Server"), "ip_address" := DText("192.168.1.12"), "status" := DText("down"),
        "cpu_usage" := DNum("0"), "memory_usage" := DNum("0"), "disk_usage" := DNum("65.4"),
        "os" := DText("Windows Server 2019"), "last_check" := DText("2023-05-25T10:15:00Z")]
  ]

  const MockActivityLogs: seq<ActivityLog> := [
    ActivityLog("log-001", "checkout", "asset", "1", "2023-05-20T10:30:00Z", "101", "Checked out Dell XPS 15 to John Smith"),
    ActivityLog("log-002", "create", "user", "103", "2022-03-20T11:45:00Z", "101", "Created new user: Robert Johnson"),
    ActivityLog("log-003", "update", "asset", "2", "2023-03-15T14:20:00Z", "101", "Updated HP EliteDesk 800 status to available"),
    ActivityLog("log-004", "assign", "license", "401", "2023-02-10T11:15:00Z", "102", "Assigned Microsoft 365 license to Jane Smith"),
    ActivityLog("log-005", "access", "bitlocker", "1", "2023-03-10T14:30:00Z", "101", "Accessed BitLocker recovery key for Dell XPS 15")
  ]
}
