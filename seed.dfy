/** The ten records the service starts with, numbered 1 to 10.  Prices are
    the bit patterns of the nearest single-precision values of the decimal
    prices the catalog lists. */
module Seed {
  import opened Products

  const Thermostat: Product := Product(1, "Smart Thermostat", Price(0x4347fd71),
    "A smart thermostat allows you to remotely control and schedule your home's heating and cooling systems through a smartphone app. It can also learn your preferences and adjust the temperature accordingly.",
    "https://www.bhphotovideo.com/images/images2500x2500/google_ga02082_us_nest_thermostat_sand_1597181.jpg")

  const FitnessTracker: Product := Product(2, "Connected Fitness Tracker", Price(0x4329fd71),
    "A connected fitness tracker measures your physical activity, heart rate, and sleep patterns. It syncs with your smartphone to provide real-time health and fitness data and insights.",
    "https://p.globalsources.com/IMAGES/PDT/B5696870693/Smart-Bracelet.jpg")

  const Doorbell: Product := Product(3, "Smart Doorbell", Price(0x4301fd71),
    "This IoT gadget includes a camera and intercom system, enabling you to see and communicate with visitors at your front door through a mobile app, even when you're not at home.",
    "https://m.media-amazon.com/images/I/71aSgA2f7-S._AC_UF894,1000_QL80_.jpg")

  const Lighting: Product := Product(4, "Wireless Smart Lighting", Price(0x42edfae1),
    "These smart light bulbs and switches can be controlled remotely, dimmed, and scheduled using a smartphone app. Some models can change colors and sync with music or your TV.",
    "https://qa1aerocartnet.s3.eu-central-1.amazonaws.com/uploads/fashion_store_staging/categories/Smart%20Lights_20221009910B7.jpg")

  const Lock: Product := Product(5, "Smart Lock", Price(0x43807eb8),
    "A smart lock provides keyless entry to your home using a mobile app or even voice commands. It offers enhanced security features, including guest access control.",
    "https://images.thdstatic.com/productImages/8a7aec4e-3740-40b3-a461-be81be7e1928/svn/ultraloq-electronic-locksets-ubpbhb-64_600.jpg")

  const PetFeeder: Product := Product(6, "IOT Pet Feeder", Price(0x430cfd71),
    "This device lets you feed your pets remotely and on a schedule, ensuring your furry friends are well-fed even when you're away from home.",
    "https://media.karousell.com/media/photos/products/2020/11/16/automatic_pet_feeder_battery___1605488144_b9fcf149.jpg")

  const GardenSensors: Product := Product(7, "Smart Garden Sensors", Price(0x419feb85),
    "IoT garden sensors monitor soil moisture, light levels, and temperature, sending real-time data to your phone. They help you optimize plant care and conserve water.",
    "https://www.deliacreates.com/wp-content/uploads/2015/07/Edyn-30-of-510717.jpg")

  const CoffeeMaker: Product := Product(8, "IoT Coffee Maker", Price(0x43fdfeb8),
    "This smart coffee maker can be programmed to brew your favorite coffee remotely through a smartphone app. You can even adjust the strength and brewing time.",
    "https://media.techeblog.com/images/smarter-coffee.jpg")

  const BabyMonitor: Product := Product(9, "Conected baby monitor", Price(0x4257f5c3),
    "A connected baby monitor offers video and audio streaming to your smartphone, providing peace of mind by keeping an eye on your baby, even from another room or location.",
    "https://www.clement.ca/media/catalog/product/H/U/HUB-HCSNPCL2-CA_A.jpg")

  const Refrigerator: Product := Product(10, "Smart Refrigerator", Price(0x44bc3fae),
    "This IoT gadget features a touchscreen display on the door, allowing you to check the contents, create shopping lists, and even order groceries online. It can also suggest recipes based on available ingredients.",
    "https://media.betterlifeuae.com/catalog/product/r/q/rq759n4ibu1-b.jpg")

  function InitialCatalog(): (r: seq<Product>)
    ensures |r| == 10
    ensures SequentialIds(r)
  {
    [Thermostat, FitnessTracker, Doorbell, Lighting, Lock,
     PetFeeder, GardenSensors, CoffeeMaker, BabyMonitor, Refrigerator]
  }
}
