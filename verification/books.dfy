/** The bot's bookkeeping state that both the forwarding handler and the
    deletion sweep write to. */
module Bookkeeping {
  import opened History
  import opened Statistics

  /** ForwardingHistory and ForwardingStatistics, side by side. */
  datatype Books = Books(ledger: Ledger, stats: Stats)
}
