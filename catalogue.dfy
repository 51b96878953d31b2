/**
 * The `Product` record, the sample catalogue and its case-insensitive
 * lookup by identifier.
 */
module Catalogue {
  import opened Wrappers
  import opened Strings

  datatype Status = InStock | LowStock | OutOfStock

  /**
   * A loosely typed field value: what a backend column or a specification
   * entry may hold. `Null` is JavaScript's `null`.
   */
  datatype Value = Null | Text(text: string) | Number(number: real)

  datatype Product = Product(
    id: string,
    name: string,
    category: string,
    location: string,
    status: Status,
    quantity: real,
    lastUpdated: string,
    specifications: map<string, Value>)

  /** `product.id.toLowerCase() === id.toLowerCase()` */
  predicate Matches(p: Product, query: string) {
    Lower(p.id) == Lower(query)
  }

  /** The product at index `i` is the first one matching the query. */
  predicate FirstMatchAt(products: seq<Product>, query: string, i: int) {
    0 <= i < |products| && Matches(products[i], query) &&
    forall j :: 0 <= j < i ==> !Matches(products[j], query)
  }

  /** `products.find(...)`: the first product whose identifier matches the query. */
  function Find(products: seq<Product>, query: string): (r: Option<Product>)
    ensures r.Some? ==> exists i :: FirstMatchAt(products, query, i) && products[i] == r.value
    ensures r.None? <==> forall i :: 0 <= i < |products| ==> !Matches(products[i], query)
  {
    if products == [] then None
    else if Matches(products[0], query) then
      assert FirstMatchAt(products, query, 0);
      Some(products[0])
    else
      var r := Find(products[1..], query);
      assert r.Some? ==> exists i :: FirstMatchAt(products, query, i) && products[i] == r.value by {
        if r.Some? {
          var i :| FirstMatchAt(products[1..], query, i) && products[1..][i] == r.value;
          assert FirstMatchAt(products, query, i + 1) by {
            forall j | 0 < j < i + 1 ensures !Matches(products[j], query) {
              assert products[j] == products[1..][j - 1];
            }
          }
        }
      }
      assert r.None? ==> forall i :: 0 <= i < |products| ==> !Matches(products[i], query) by {
        if r.None? {
          forall i | 0 < i < |products| ensures !Matches(products[i], query) {
            assert products[i] == products[1..][i - 1];
          }
        }
      }
      r
  }

  /** Queries that differ only in the case of ASCII letters find the same product. */
  lemma FindIgnoresCase(products: seq<Product>, q1: string, q2: string)
    requires Lower(q1) == Lower(q2)
    ensures Find(products, q1) == Find(products, q2)
  {
  }

  /** The sample catalogue. */
  const Products: seq<Product> := [
    Product("P1001", "Hydraulic Pump", "Hydraulics", "Warehouse A, Shelf 3",
      InStock, 42.0, "2023-10-15",
      map["pressure" := Text("200 bar"), "flow-rate" := Text("15 L/min"),
          "weight" := Number(5.2), "material" := Text("Stainless Steel"),
          "power" := Text("1.5 kW")]),
    Product("P1002", "Electric Motor", "Electric Components", "Warehouse B, Shelf 7",
      LowStock, 7.0, "2023-11-01",
      map["voltage" := Text("220V"), "power" := Text("2.2 kW"), "rpm" := Number(1450.0),
          "weight" := Number(12.7), "ip-rating" := Text("IP54")]),
    Product("P1003", "Control Valve", "Hydraulics", "Warehouse A, Shelf 9",
      InStock, 26.0, "2023-10-22",
      map["pressure" := Text("350 bar"), "ports" := Number(4.0),
          "material" := Text("Carbon Steel"), "weight" := Number(3.8),
          "operating-temp" := Text("-20°C to 80°C")]),
    Product("P1004", "Pressure Sensor", "Sensors", "Warehouse C, Shelf 2",
      OutOfStock, 0.0, "2023-09-30",
      map["range" := Text("0-500 bar"), "output" := Text("4-20 mA"),
          "accuracy" := Text("±0.5%"), "weight" := Number(0.25),
          "connection" := Text("G1/4")]),
    Product("P1005", "PLC Controller", "Automation", "Warehouse B, Shelf 10",
      InStock, 15.0, "2023-11-05",
      map["inputs" := Number(16.0), "outputs" := Number(12.0), "voltage" := Text("24V DC"),
          "communication" := Text("EtherNet/IP"), "mounting" := Text("DIN Rail")]),
    Product("P1006", "Pneumatic Cylinder", "Pneumatics", "Warehouse A, Shelf 5",
      InStock, 38.0, "2023-10-28",
      map["bore" := Text("63 mm"), "stroke" := Text("200 mm"), "pressure" := Text("10 bar"),
          "material" := Text("Aluminum"), "mounting" := Text("Flange")]),
    Product("P1007", "Gear Pump", "Hydraulics", "Warehouse A, Shelf 4",
      LowStock, 5.0, "2023-10-20",
      map["displacement" := Text("22 cc/rev"), "max-pressure" := Text("250 bar"),
          "speed" := Text("1800 rpm"), "weight" := Number(7.3),
          "inlet-size" := Text("1 inch")]),
    Product("P1008", "Temperature Sensor", "Sensors", "Warehouse C, Shelf 3",
      InStock, 24.0, "2023-11-02",
      map["range" := Text("-50°C to 150°C"), "output" := Text("PT100"),
          "accuracy" := Text("±0.3°C"), "length" := Text("100 mm"),
          "connection" := Text("M12")]),
    Product("P1009", "Servo Drive", "Electric Components", "Warehouse B, Shelf 8",
      InStock, 12.0, "2023-10-25",
      map["voltage" := Text("400V"), "power" := Text("5 kW"), "current" := Text("10A"),
          "protection" := Text("Short circuit, overvoltage"),
          "communication" := Text("EtherCAT")]),
    Product("P1010", "Filter Element", "Hydraulics", "Warehouse A, Shelf 2",
      OutOfStock, 0.0, "2023-09-15",
      map["filtration" := Text("10 micron"), "material" := Text("Cellulose"),
          "flow-rate" := Text("60 L/min"), "pressure-drop" := Text("0.5 bar"),
          "length" := Text("250 mm")])
  ]

  /** `findProductById` over the sample catalogue. */
  function FindProductById(query: string): (r: Option<Product>)
    ensures r.Some? ==> r.value in Products && Matches(r.value, query)
    ensures r.None? <==> forall p :: p in Products ==> !Matches(p, query)
  {
    Find(Products, query)
  }

  /** The number written by the two digits after `P10` in a sample identifier. */
  function Serial(id: string): int
    requires |id| == 5
  {
    (id[3] as int - '0' as int) * 10 + (id[4] as int - '0' as int)
  }

  /** Sample product `i` has identifier `P10` followed by the two digits of `i + 1`. */
  lemma SampleSerials()
    ensures forall i :: 0 <= i < |Products| ==>
      Products[i].id == "P10" + [('0' as int + (i + 1) / 10) as char, ('0' as int + (i + 1) % 10) as char]
    ensures forall i :: 0 <= i < |Products| ==>
      |Products[i].id| == 5 && Serial(Products[i].id) == i + 1
  {
  }

  /** No two sample identifiers are equal, even ignoring case. */
  lemma SampleIdsDistinct()
    ensures forall i, j :: 0 <= i < j < |Products| ==> Lower(Products[i].id) != Lower(Products[j].id)
  {
    SampleSerials();
    forall i, j | 0 <= i < j < |Products|
      ensures Lower(Products[i].id) != Lower(Products[j].id)
    {
      var a, b := Products[i].id, Products[j].id;
      assert Lower(a)[3] != Lower(b)[3] || Lower(a)[4] != Lower(b)[4];
    }
  }

  /** Hence at most one sample product matches any query. */
  lemma AtMostOneSampleMatch(query: string)
    ensures forall i, j :: 0 <= i < j < |Products| ==>
      !(Matches(Products[i], query) && Matches(Products[j], query))
  {
    SampleIdsDistinct();
  }

  /** Sample stock levels are never negative, and out of stock means none left. */
  lemma SampleStockConsistent()
    ensures forall p :: p in Products ==> p.quantity >= 0.0
    ensures forall p :: p in Products && p.status == OutOfStock ==> p.quantity == 0.0
  {
  }

}
