/**
 * The settings the core reads, at their default values.  Loading them from an
 * environment file is not modelled: each is a fixed constant.
 */
module Config {
  const BaseCity: string := "Marseille"
  const BaseLat: real := 43.2965
  const BaseLon: real := 5.3698

  const DatabaseUrl: string := "sqlite+sqlite:///./radar.db"

  /** Marketplace fee as a fraction of the price. */
  const DefaultFeesPct: real := 0.12
  /** Shipping cost per kilogram, in euros. */
  const DefaultShipEurPerKg: real := 1.8
  /** Fixed part of every shipping estimate, in euros. */
  const DefaultFixedShipEur: real := 25.0
}
