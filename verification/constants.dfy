/** The fixed configuration of the application: the discount rule, the
    seed catalog and the demo accounts. */
module Constants {
  import opened Types

  /** Totals at or above this many rupiah earn the discount. */
  const DiscountThreshold: int := 100000

  /** The discount rate, ten percent. */
  const DiscountRate: real := 0.10

  /** The catalog a fresh installation starts with. */
  const InitialProducts: seq<Product> := [
    Product(1, "Paracetamol 500mg", 100, 5000, "Obat Bebas"),
    Product(2, "Amoxicillin 500mg", 50, 12000, "Antibiotik"),
    Product(3, "Cetirizine Syrup", 30, 25000, "Antihistamin"),
    Product(4, "Vitamin C 1000mg", 200, 1500, "Suplemen"),
    Product(5, "Antacid Doen", 80, 3000, "Obat Lambung")
  ]

  /** The demo accounts. */
  const MockUsers: seq<User> := [
    User(1, "Administrator", "admin@apotek.com", Admin),
    User(2, "Budi Kasir", "kasir@apotek.com", Kasir)
  ]
}
